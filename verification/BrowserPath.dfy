/** The browser and the hub joined: what a page sends on its connection is what a handler of the hub hears
    (web/app.js, internal/hub/hub.go, internal/agent/agent.go). */
module BrowserPath {
  import opened Wrappers
  import opened MuxFrame
  import opened Registry
  import opened ClientLoop
  import opened HubSteps
  import opened HubHistory
  import opened TypingPath
  import TabTable
  import TabPage
  import AgentTable

  /** A message of the page, as the hub reads it. */
  predicate Carries(m: TabTable.Message, heard: ClientMsg) {
    match m
    case Attach(name) => heard == ClientMsg.Attach(name)
    case Detach(name) => heard == ClientMsg.Detach(name)
    case Active(name) => heard == ClientMsg.Active(name)
    case Resize(name) => heard.Resize? && heard.session == name
    case Focus(on) => heard == ClientMsg.Focus(if on then "on" else "off")
    case RequestWrite => heard == ClientMsg.RequestWrite
    case ReleaseWrite => heard == ClientMsg.ReleaseWrite
    case Input(data) => heard == Binary(data)
  }

  /** The handshake has read the first message, an attach, and the handler has heard some of those that
      follow it, in order. */
  predicate HeardFrom(heard: seq<Heard>, sent: seq<TabTable.Message>) {
    && |heard| < |sent| && sent[0].Attach?
    && forall i :: 0 <= i < |heard| ==> Carries(sent[i + 1], heard[i].msg)
  }

  // ----- the active session

  lemma TallyNext(sent: seq<TabTable.Message>, n: nat)
    requires n < |sent|
    ensures TabPage.TallyOf(sent[..n + 1]) == TabPage.Count(TabPage.TallyOf(sent[..n]), sent[n])
  {
    assert sent[..n + 1] == sent[..n] + [sent[n]];
    TabPage.TallyAppend(sent[..n], sent[n]);
  }

  lemma {:induction false} LastActiveHeard(heard: seq<Heard>, sent: seq<TabTable.Message>, n: nat)
    requires HeardFrom(heard, sent) && n <= |heard|
    ensures ClientLoop.LastActive(heard, n) == TabPage.TallyOf(sent[..n + 1]).active
  {
    TallyNext(sent, n);
    if n == 0 {
      assert sent[..0] == [];
    } else {
      LastActiveHeard(heard, sent, n - 1);
      assert Carries(sent[n], heard[n - 1].msg);
    }
  }

  /** Once all has been heard, the loop's active session is that of the last "active" message. */
  lemma ActiveIsLast(b: Binding, heard: seq<Heard>, sent: seq<TabTable.Message>)
    requires HeardFrom(heard, sent) && |heard| + 1 == |sent| && b.proto >= 2
    requires forall i :: 0 <= i < |heard| ==> !EndsLoop(b, heard[i].msg)
    requires TabPage.TallyOf(sent).active.Some?
    ensures ViewAfter(b, heard).active == TabPage.TallyOf(sent).active.value
  {
    ViewIsHistory(b, heard);
    LastActiveHeard(heard, sent, |heard|);
    assert sent[..|sent|] == sent;
  }

  lemma GateOfFrame(b: Binding, v: View, tab: Bytes, bytes: Bytes, frame: Bytes)
    requires b.proto >= 2 && Encode(tab, bytes) == Ok(frame)
    ensures FrameFor(b, v, frame) == if tab == v.active then Some(frame) else None
  {
    EncodeThenDecode(tab, bytes);
  }

  /** In every run, a handler that has heard all that an open page in hub mode has sent, and that is not
      leaving, holds the page's active tab as its active session; so its session gate passes a frame
      exactly if that is the tab it was framed for. */
  lemma HubFollowsPage(page: TabPage.Page, states: seq<HubState>, acts: seq<Action>, k: nat, x: nat)
    requires page.Valid() && page.multiplex && page.open && page.activeSession.Some?
    requires IsRun(states, acts) && k < |states| && x < |states[k].handlers|
    requires var h := states[k].handlers[x];
      h.b.proto >= 2 && !Leaving(h) && HeardFrom(h.heard, page.sent) && |h.heard| + 1 == |page.sent|
    ensures var h := states[k].handlers[x];
      && h.view.active == page.activeSession.value
      && forall tab, bytes, frame :: Encode(tab, bytes) == Ok(frame) ==>
           (FrameFor(h.b, h.view, frame) == if tab == page.activeSession.value then Some(frame) else None)
  {
    var h := states[k].handlers[x];
    HistoryHolds(states, acts, k, x);
    ActiveIsLast(h.b, h.heard, page.sent);
    forall tab, bytes, frame | Encode(tab, bytes) == Ok(frame)
      ensures FrameFor(h.b, h.view, frame) == if tab == h.view.active then Some(frame) else None
    {
      GateOfFrame(h.b, h.view, tab, bytes, frame);
    }
  }

  // ----- keystrokes

  /** The number of input messages before position n. */
  function Rank(sent: seq<TabTable.Message>, n: nat): nat
    requires n <= |sent|
  {
    |TabPage.TallyOf(sent[..n]).inputs|
  }

  /** Later in the list there is more input, and what there was stays. */
  lemma {:induction false} InputsGrow(sent: seq<TabTable.Message>, i: nat, j: nat)
    requires i <= j <= |sent|
    ensures TabPage.TallyOf(sent[..i]).inputs <= TabPage.TallyOf(sent[..j]).inputs
  {
    if i < j {
      InputsGrow(sent, i, j - 1);
      TallyNext(sent, j - 1);
    }
  }

  /** An input message is the one of its rank, and ranks grow with positions. */
  lemma RankOfInput(sent: seq<TabTable.Message>, n: nat, m: nat)
    requires n < m <= |sent| && sent[n].Input?
    ensures Rank(sent, n) < Rank(sent, m)
    ensures TabPage.TallyOf(sent[..m]).inputs[Rank(sent, n)] == sent[n].data
  {
    TallyNext(sent, n);
    InputsGrow(sent, n + 1, m);
  }

  lemma {:induction false} FramesAt(typed: seq<TabPage.Key>)
    ensures |TabPage.FramesOf(typed)| == |typed|
    ensures forall i :: 0 <= i < |typed| ==> TabPage.FramesOf(typed)[i] == typed[i].frame
  {
    if typed != [] {
      FramesAt(typed[..|typed| - 1]);
    }
  }

  /** The keystroke behind an input message. */
  lemma KeyOfMessage(page: TabPage.Page, heard: seq<Heard>, p: nat)
    requires page.Valid() && page.multiplex && HeardFrom(heard, page.sent)
    requires p < |heard| && heard[p].msg.Binary?
    ensures var r := Rank(page.sent, p + 1);
      r < |page.typed| && Encode(page.typed[r].tab, page.typed[r].bytes) == Ok(heard[p].msg.data)
  {
    assert Carries(page.sent[p + 1], heard[p].msg);
    RankOfInput(page.sent, p + 1, |page.sent|);
    assert page.sent[..|page.sent|] == page.sent;
    FramesAt(page.typed);
  }

  /** A write that delivers a message of the page is the keystroke behind it. */
  lemma WriteIsKey(page: TabPage.Page, b: Binding, heard: seq<Heard>, p: nat, w: Written)
    requires page.Valid() && page.multiplex && b.proto >= 2 && HeardFrom(heard, page.sent)
    requires p < |heard| && heard[p].msg.Binary? && Delivers(b, heard[p].msg.data, w)
    ensures var r := Rank(page.sent, p + 1);
      r < |page.typed| && w.session == page.typed[r].tab && w.payload == page.typed[r].bytes
  {
    KeyOfMessage(page, heard, p);
    var key := page.typed[Rank(page.sent, p + 1)];
    EncodeThenDecode(key.tab, key.bytes);
  }

  /** Input messages picked in order have ranks in order. */
  lemma RanksOf(sent: seq<TabTable.Message>, heard: seq<Heard>, at: seq<nat>) returns (ranks: seq<nat>)
    requires HeardFrom(heard, sent) && Increasing(at, |heard|)
    requires forall i :: 0 <= i < |at| ==> heard[at[i]].msg.Binary?
    ensures |ranks| == |at| && forall i :: 0 <= i < |at| ==> ranks[i] == Rank(sent, at[i] + 1)
    ensures forall i, j :: 0 <= i < j < |ranks| ==> ranks[i] < ranks[j]
  {
    ranks := seq(|at|, i requires 0 <= i < |at| => Rank(sent, at[i] + 1));
    forall i, j | 0 <= i < j < |at| ensures ranks[i] < ranks[j] {
      assert Carries(sent[at[i] + 1], heard[at[i]].msg);
      RankOfInput(sent, at[i] + 1, at[j] + 1);
    }
  }

  /** Keystrokes end to end: in every run in which the handler of a page is the only one to have typed over
      an agent connection, the payloads that the agent writes to its sessions are keystrokes of that
      page, in the order typed, none repeated and none altered, each to the tab it was typed in. */
  lemma KeystrokesEndToEnd(
      page: TabPage.Page, states: seq<HubState>, acts: seq<Action>, k: nat, x: nat, conn: ConnId,
      msgs: seq<AgentTable.Inbound>) returns (picks: seq<nat>)
    requires page.Valid() && page.multiplex
    requires IsRun(states, acts) && k < |states| && x < |states[k].handlers|
    requires states[k].handlers[x].b.proto >= 2 && HeardFrom(states[k].handlers[x].heard, page.sent)
    requires SoleTypist(states[k].wire, conn, x) && Binaries(msgs) <= FramesOn(states[k].wire, conn)
    ensures |picks| == |Writes(msgs)| && Increasing(picks, |page.typed|)
    ensures forall i :: 0 <= i < |picks| ==>
      Writes(msgs)[i].session == page.typed[picks[i]].tab && Writes(msgs)[i].payload == page.typed[picks[i]].bytes
  {
    var h := states[k].handlers[x];
    var at := TypingEndToEnd(states, acts, k, x, conn, msgs);
    assert forall i :: 0 <= i < |at| ==> Passes(h.b, h.heard, at[i]);
    picks := RanksOf(page.sent, h.heard, at);
    forall i | 0 <= i < |at|
      ensures picks[i] < |page.typed|
      ensures Writes(msgs)[i].session == page.typed[picks[i]].tab
      ensures Writes(msgs)[i].payload == page.typed[picks[i]].bytes
    {
      WriteIsKey(page, h.b, h.heard, at[i], Writes(msgs)[i]);
    }
  }
}
