/** The typing path end to end: from the messages a browser sends, through the hub under any
    interleaving, over the agent connection, to the payloads written to terminal sessions. */
module TypingPath {
  import opened Wrappers
  import opened MuxFrame
  import opened Registry
  import opened ClientLoop
  import opened HubSteps
  import opened HubBounds
  import opened HubHistory
  import AgentTable

  // ----- picking elements in order

  predicate Increasing(picks: seq<nat>, bound: nat) {
    && (forall i, j :: 0 <= i < j < |picks| ==> picks[i] < picks[j])
    && (forall i :: 0 <= i < |picks| ==> picks[i] < bound)
  }

  function Compose(outer: seq<nat>, inner: seq<nat>): (picks: seq<nat>)
    requires forall i :: 0 <= i < |inner| ==> inner[i] < |outer|
    ensures |picks| == |inner| && forall i :: 0 <= i < |inner| ==> picks[i] == outer[inner[i]]
  {
    seq(|inner|, i requires 0 <= i < |inner| => outer[inner[i]])
  }

  lemma ComposeIncreasing(outer: seq<nat>, inner: seq<nat>, bound: nat)
    requires Increasing(inner, |outer|) && Increasing(outer, bound)
    ensures Increasing(Compose(outer, inner), bound)
  {
  }

  // ----- the hub: forwarded frames are messages of the client

  /** The frame that a binary message of the client becomes. */
  predicate Becomes(b: Binding, data: Bytes, frame: Bytes) {
    if b.proto < 2 then Encode(b.claims.session, data) == Ok(frame) else frame == data && Decode(data).Ok?
  }

  lemma {:induction false} PassedPicks(b: Binding, heard: seq<Heard>, n: nat) returns (picks: seq<nat>)
    requires n <= |heard|
    ensures |picks| == |Passed(b, heard, n)| && Increasing(picks, n)
    ensures forall i :: 0 <= i < |picks| ==>
      Passes(b, heard, picks[i]) && Becomes(b, heard[picks[i]].msg.data, Passed(b, heard, n)[i])
  {
    if n == 0 {
      picks := [];
    } else {
      picks := PassedPicks(b, heard, n - 1);
      if Passes(b, heard, n - 1) {
        picks := picks + [n - 1];
      }
    }
  }

  // ----- the agent connection of a sole writer

  /** Every input frame on one agent connection. */
  function FramesOn(wire: seq<AgentWrite>, conn: ConnId): seq<Bytes> {
    if wire == [] then []
    else
      var w := wire[|wire| - 1];
      FramesOn(wire[..|wire| - 1], conn) + (if w.conn == conn && w.msg.Input? then [w.msg.frame] else [])
  }

  predicate SoleTypist(wire: seq<AgentWrite>, conn: ConnId, x: nat) {
    forall w :: w in wire && w.conn == conn && w.msg.Input? ==> w.from == x
  }

  /** Whoever is a writer, is about to forward a frame, or has forwarded one, was granted the role. */
  ghost predicate OnlyGranted(s: HubState) {
    && (forall a :: a in s.agents && s.agents[a].writer in s.owner ==> s.owner[s.agents[a].writer] in s.grants)
    && (forall i :: 0 <= i < |s.handlers| && AboutToForward(s.handlers[i]) ==> i in s.grants)
    && (forall w :: w in s.wire && w.msg.Input? ==> w.from in s.grants)
  }

  lemma AdvanceKeepsGranted(s: HubState, i: nat, e: Effect)
    requires Inv(s) && OnlyGranted(s) && i < |s.handlers|
    requires Fits(s.handlers[i], e, s.lastId + 1) && Gated(s.handlers[i], e, s.agents)
    ensures OnlyGranted(Advance(s, i, e))
  {
    var t := Advance(s, i, e);
    assert IdOk(s, i);
    forall a | a in t.agents && t.agents[a].writer in t.owner ensures t.owner[t.agents[a].writer] in t.grants {
      AgentAfter(s, i, e, a);
      assert AgentOk(s, a);
    }
  }

  lemma OthersKeepGranted(s: HubState, act: Action)
    requires Inv(s) && OnlyGranted(s) && (!act.Turn? || act.i >= |s.handlers|)
    ensures OnlyGranted(Fire(s, act))
  {
  }

  lemma StepKeepsGranted(s: HubState, act: Action, t: HubState)
    requires Inv(s) && OnlyGranted(s) && Steps(s, act, t)
    ensures OnlyGranted(t)
  {
    if act.Turn? && act.i < |s.handlers| {
      TurnFits(s.handlers[act.i], s.agents, s.lastId + 1, act.input);
      AdvanceKeepsGranted(s, act.i, Turned(s, act.i, act.input));
    } else {
      OthersKeepGranted(s, act);
    }
  }

  lemma {:induction false} OnlyGrantedInRuns(states: seq<HubState>, acts: seq<Action>, k: nat)
    requires IsRun(states, acts) && k < |states|
    ensures OnlyGranted(states[k])
  {
    if k > 0 {
      OnlyGrantedInRuns(states, acts, k - 1);
      InvHolds(states, acts, k - 1);
      assert StepsAt(states, acts, k - 1);
      StepKeepsGranted(states[k - 1], acts[k - 1], states[k]);
    }
  }

  /** A client that is the only one ever granted the writer role is the only one that has typed, on
      every agent connection. */
  lemma SoleWriterIsSoleTypist(states: seq<HubState>, acts: seq<Action>, k: nat, x: nat, conn: ConnId)
    requires IsRun(states, acts) && k < |states|
    requires forall g :: g in states[k].grants ==> g == x
    ensures SoleTypist(states[k].wire, conn, x)
  {
    OnlyGrantedInRuns(states, acts, k);
  }

  lemma FramesOfInputs(wire: seq<AgentWrite>, w: AgentWrite, x: nat)
    ensures HubHistory.Frames(Inputs(wire + [w], x)) == HubHistory.Frames(Inputs(wire, x)) +
      if w.from == x && w.msg.Input? then [w.msg.frame] else []
  {
    assert (wire + [w])[..|wire|] == wire;
    var now := Inputs(wire, x);
    if w.from == x && w.msg.Input? {
      assert (now + [w])[..|now|] == now;
    } else {
      assert now + [] == now;
    }
  }

  lemma {:induction false} FramesOnPicks(wire: seq<AgentWrite>, conn: ConnId, x: nat) returns (picks: seq<nat>)
    requires SoleTypist(wire, conn, x)
    ensures var frames := HubHistory.Frames(Inputs(wire, x));
      && |picks| == |FramesOn(wire, conn)| && Increasing(picks, |frames|)
      && forall i :: 0 <= i < |picks| ==> FramesOn(wire, conn)[i] == frames[picks[i]]
  {
    if wire == [] {
      picks := [];
    } else {
      var n := |wire| - 1;
      picks := FramesOnPicks(wire[..n], conn, x);
      assert wire == wire[..n] + [wire[n]];
      FramesOfInputs(wire[..n], wire[n], x);
      if wire[n].conn == conn && wire[n].msg.Input? {
        picks := picks + [|HubHistory.Frames(Inputs(wire[..n], x))|];
      }
    }
  }

  // ----- the agent: writes to sessions are frames of the connection

  datatype Written = Written(handle: nat, session: Bytes, payload: Bytes)

  function Binaries(msgs: seq<AgentTable.Inbound>): seq<Bytes> {
    if msgs == [] then []
    else
      var m := msgs[|msgs| - 1];
      Binaries(msgs[..|msgs| - 1]) + (if m.Binary? then [m.data] else [])
  }

  /** The write that a message causes, given the session table. */
  function WriteFor(t: AgentTable.Table, m: AgentTable.Inbound): seq<Written> {
    if !m.Binary? then []
    else
      match Decode(m.data)
      case Err(_) => []
      case Ok(f) => if f.session in t.sessions then [Written(t.sessions[f.session], f.session, f.payload)] else []
  }

  /** Every write to a terminal session, in order. */
  function Writes(msgs: seq<AgentTable.Inbound>): seq<Written> {
    if msgs == [] then []
    else
      var n := |msgs| - 1;
      Writes(msgs[..n]) + WriteFor(AgentTable.OnMessages(AgentTable.EMPTY_TABLE, msgs[..n]), msgs[n])
  }

  /** The payloads written to one handle. */
  function WritesTo(writes: seq<Written>, handle: nat): seq<Bytes> {
    if writes == [] then []
    else
      var w := writes[|writes| - 1];
      WritesTo(writes[..|writes| - 1], handle) + (if w.handle == handle then [w.payload] else [])
  }

  lemma WritesToAppend(writes: seq<Written>, more: seq<Written>, handle: nat)
    requires |more| <= 1
    ensures WritesTo(writes + more, handle) ==
      WritesTo(writes, handle) + if |more| == 1 && more[0].handle == handle then [more[0].payload] else []
  {
    if |more| == 1 {
      assert (writes + more)[..|writes|] == writes;
    } else {
      assert writes + more == writes;
    }
  }

  predicate GoesToOwn(t: AgentTable.Table, w: Written) {
    w.handle < |t.handles| && t.handles[w.handle].id == w.session
  }

  /** What one message does to handle k: it is typed the payload of the write the message causes. */
  lemma OneMessageTypes(before: AgentTable.Table, m: AgentTable.Inbound, k: nat)
    requires AgentTable.Conserved(before) && k < |AgentTable.OnMessage(before, m).handles|
    ensures var t, more := AgentTable.OnMessage(before, m), WriteFor(before, m);
      && |before.handles| <= |t.handles| && |more| <= 1
      && t.handles[k].typed == (if k < |before.handles| then before.handles[k].typed else []) +
           (if |more| == 1 && more[0].handle == k then [more[0].payload] else [])
      && (k < |before.handles| ==> t.handles[k].id == before.handles[k].id)
      && (more != [] ==> GoesToOwn(before, more[0]))
  {
  }

  /** Each handle has been written the logged payloads that went to it, each under its own id. */
  ghost predicate TypedAsLogged(t: AgentTable.Table, writes: seq<Written>) {
    && (forall k :: 0 <= k < |t.handles| ==> t.handles[k].typed == WritesTo(writes, k))
    && (forall i :: 0 <= i < |writes| ==> GoesToOwn(t, writes[i]))
  }

  lemma MessageTypesAsLogged(before: AgentTable.Table, m: AgentTable.Inbound, writes: seq<Written>)
    requires AgentTable.Conserved(before) && TypedAsLogged(before, writes)
    ensures TypedAsLogged(AgentTable.OnMessage(before, m), writes + WriteFor(before, m))
  {
    var t, more := AgentTable.OnMessage(before, m), WriteFor(before, m);
    forall k | 0 <= k < |t.handles| ensures t.handles[k].typed == WritesTo(writes + more, k) {
      OneMessageTypes(before, m, k);
      WritesToAppend(writes, more, k);
      if k >= |before.handles| {
        NotYetWritten(writes, k);
      }
    }
    forall i | 0 <= i < |writes + more| ensures GoesToOwn(t, (writes + more)[i]) {
      var w := (writes + more)[i];
      assert i < |writes| ==> w == writes[i];
      OneMessageTypes(before, m, w.handle);
    }
  }

  lemma {:induction false} WritesAreTyped(msgs: seq<AgentTable.Inbound>)
    ensures TypedAsLogged(AgentTable.OnMessages(AgentTable.EMPTY_TABLE, msgs), Writes(msgs))
  {
    if msgs != [] {
      var n := |msgs| - 1;
      WritesAreTyped(msgs[..n]);
      AgentTable.HandlesAreConserved(msgs[..n]);
      MessageTypesAsLogged(AgentTable.OnMessages(AgentTable.EMPTY_TABLE, msgs[..n]), msgs[n], Writes(msgs[..n]));
    }
  }

  lemma NotYetWritten(writes: seq<Written>, k: nat)
    requires forall i :: 0 <= i < |writes| ==> writes[i].handle < k
    ensures WritesTo(writes, k) == []
  {
  }

  lemma {:induction false} WritesPick(msgs: seq<AgentTable.Inbound>) returns (picks: seq<nat>)
    ensures |picks| == |Writes(msgs)| && Increasing(picks, |Binaries(msgs)|)
    ensures forall i :: 0 <= i < |picks| ==>
      Decode(Binaries(msgs)[picks[i]]) == Ok(Frame(Writes(msgs)[i].session, Writes(msgs)[i].payload))
  {
    if msgs == [] {
      picks := [];
    } else {
      var n := |msgs| - 1;
      var front, m := msgs[..n], msgs[n];
      picks := WritesPick(front);
      var more := WriteFor(AgentTable.OnMessages(AgentTable.EMPTY_TABLE, front), m);
      assert Writes(msgs) == Writes(front) + more;
      if more != [] {
        assert Binaries(msgs) == Binaries(front) + [m.data] && |more| == 1;
        picks := picks + [|Binaries(front)|];
      } else {
        assert Writes(msgs) == Writes(front) && Binaries(front) <= Binaries(msgs);
      }
    }
  }

  // ----- end to end

  /** The write carries exactly what the client put into the message: the data itself, for the claimed
      session, or the payload of the frame, for the session that the frame names. */
  predicate Delivers(b: Binding, data: Bytes, w: Written) {
    if b.proto < 2 then w.session == b.claims.session && w.payload == data
    else Decode(data) == Ok(Frame(w.session, w.payload))
  }

  lemma BecomesDelivers(b: Binding, data: Bytes, frame: Bytes, w: Written)
    requires Becomes(b, data, frame) && Decode(frame) == Ok(Frame(w.session, w.payload))
    ensures Delivers(b, data, w)
  {
  }

  /** In every run in which one client is the only one to have typed over an agent connection, the
      payloads that the agent writes to its sessions are payloads that the client sent, in the order
      sent, none repeated and none altered, each to the session named with it, and each from a message
      for which all gates were open. */
  lemma TypingEndToEnd(
      states: seq<HubState>, acts: seq<Action>, k: nat, x: nat, conn: ConnId, msgs: seq<AgentTable.Inbound>)
      returns (picks: seq<nat>)
    requires IsRun(states, acts) && k < |states| && x < |states[k].handlers|
    requires SoleTypist(states[k].wire, conn, x)
    requires Binaries(msgs) <= FramesOn(states[k].wire, conn)
    ensures var h := states[k].handlers[x];
      && |picks| == |Writes(msgs)| && Increasing(picks, |h.heard|)
      && forall i :: 0 <= i < |picks| ==>
           Passes(h.b, h.heard, picks[i]) && Delivers(h.b, h.heard[picks[i]].msg.data, Writes(msgs)[i])
  {
    var h := states[k].handlers[x];
    var frames := HubHistory.Frames(Inputs(states[k].wire, x));
    ForwardedIsHistory(states, acts, k, x);
    var heardAt := PassedPicks(h.b, h.heard, |h.heard|);
    var frameAt := FramesOnPicks(states[k].wire, conn, x);
    var binaryAt := WritesPick(msgs);
    assert frames == Forwarded(h.b, h.heard)[..|frames|];
    ComposeIncreasing(frameAt, binaryAt, |heardAt|);
    var sentAt := Compose(frameAt, binaryAt);
    ComposeIncreasing(heardAt, sentAt, |h.heard|);
    picks := Compose(heardAt, sentAt);
    forall i | 0 <= i < |picks|
      ensures Passes(h.b, h.heard, picks[i]) && Delivers(h.b, h.heard[picks[i]].msg.data, Writes(msgs)[i])
    {
      assert Binaries(msgs)[binaryAt[i]] == FramesOn(states[k].wire, conn)[binaryAt[i]] == frames[sentAt[i]];
      BecomesDelivers(h.b, h.heard[picks[i]].msg.data, frames[sentAt[i]], Writes(msgs)[i]);
    }
  }
}
