/** What each handler of the interleaved hub has written to its agent and requested, as a history of the
    messages it heard and of the answers that its gates gave. */
module HubHistory {
  import opened Wrappers
  import opened MuxFrame
  import opened Registry
  import opened ClientLoop
  import opened HubSteps
  import opened HubBounds

  // ----- one handler

  predicate AwaitsGate(h: Handler) {
    h.pc.Typing? && !h.pc.typing.Forwarding?
  }

  predicate AskedToWrite(h: Handler) {
    exists k :: 0 <= k < |h.heard| && h.heard[k].msg == RequestWrite
  }

  /** The loop variables follow the messages heard, and a message waiting at a gate is the last one. */
  predicate HeardWell(h: Handler) {
    && h.view == ViewAfter(h.b, h.heard)
    && (!Leaving(h) ==> forall k :: 0 <= k < |h.heard| ==> !EndsLoop(h.b, h.heard[k].msg))
    && (h.requested ==> AskedToWrite(h))
    && (AwaitsGate(h) ==>
          && h.heard != [] && h.b.claims.write && h.view.focus
          && h.heard[|h.heard| - 1] == Heard(Binary(h.pc.typing.data), h.pc.typing.InWriter?, false))
  }

  function Listed<T>(m: Option<T>): seq<T> {
    if m.Some? then [m.value] else []
  }

  /** The handler has greeted its agent, and what it has written since, with what it writes next, is what
      its history makes it say; or it has not got that far. */
  predicate Ledger(h: Handler, writes: seq<AgentMsg>) {
    && HeardWell(h)
    && ((IsUnmet(h) && writes == [] && h.heard == [])
        || ((!IsUnmet(h) || h.pc.Done?) && writes + Listed(Due(h)) == [FirstWrite(h.b)] + Said(h.b, h.heard)))
  }

  /** The attach message of the handshake. */
  function FirstWrite(b: Binding): AgentMsg {
    Ctl(AttachSession(b.first, b.proto))
  }

  function Hearing(h: Handler, m: ClientMsg): Handler {
    h.(heard := h.heard + [Heard(m, false, false)], view := Observe(h.b, h.view, m))
  }

  lemma HearingFacts(h: Handler, m: ClientMsg)
    requires HeardWell(h) && !Leaving(h)
    ensures var g := Hearing(h, m);
      && g.view == ViewAfter(g.b, g.heard)
      && Said(g.b, g.heard) == Said(h.b, h.heard) + Listed(Say(h.b, h.view, Heard(m, false, false)))
      && (!EndsLoop(h.b, m) ==> forall k :: 0 <= k < |g.heard| ==> !EndsLoop(g.b, g.heard[k].msg))
      && (h.requested || m == RequestWrite ==> AskedToWrite(g))
  {
    var g := Hearing(h, m);
    assert g.heard[..|h.heard|] == h.heard;
    SaidStep(h.b, h.heard, Heard(m, false, false));
    if m == RequestWrite {
      assert g.heard[|h.heard|].msg == RequestWrite;
    } else if h.requested {
      var k :| 0 <= k < |h.heard| && h.heard[k].msg == RequestWrite;
      assert g.heard[k].msg == RequestWrite;
    }
  }

  /** The handler after hearing m, wherever it goes next. */
  predicate HasHeard(h: Handler, m: ClientMsg, g: Handler) {
    && g.b == h.b && g.view == Hearing(h, m).view && g.heard == Hearing(h, m).heard
    && (g.requested ==> h.requested || m == RequestWrite)
    && (Leaving(g) || !EndsLoop(h.b, m))
    && Due(g) == Say(h.b, h.view, Heard(m, false, false))
    && (AwaitsGate(g) ==> m.Binary? && g.pc == Typing(InLock(m.data)) && g.b.claims.write && g.view.focus)
  }

  lemma MessageIsHeard(h: Handler, m: ClientMsg)
    ensures HasHeard(h, m, OnMessage(h, m).h)
  {
  }

  lemma Append3<T>(a: seq<T>, b: seq<T>, c: seq<T>)
    ensures a + (b + c) == (a + b) + c
  {
  }

  /** The equation of the ledger, when something more is said and is now due. */
  lemma MoreDue(first: AgentMsg, writes: seq<AgentMsg>, said: seq<AgentMsg>, more: seq<AgentMsg>)
    requires writes + [] == [first] + said
    ensures writes + more == [first] + (said + more)
  {
    assert writes + [] == writes;
    Append3([first], said, more);
  }

  lemma HeardWellStep(h: Handler, m: ClientMsg, g: Handler)
    requires h.pc.Reading? && HeardWell(h) && HasHeard(h, m, g)
    ensures HeardWell(g)
    ensures Said(g.b, g.heard) == Said(h.b, h.heard) + Listed(Due(g))
  {
    HearingFacts(h, m);
    assert AskedToWrite(Hearing(h, m)) ==> AskedToWrite(g);
    assert AwaitsGate(g) ==> g.heard[|g.heard| - 1] == Heard(m, false, false);
  }

  lemma HeardLedger(h: Handler, writes: seq<AgentMsg>, m: ClientMsg, g: Handler)
    requires h.pc.Reading? && Ledger(h, writes) && HasHeard(h, m, g) && !IsUnmet(g)
    ensures Ledger(g, writes)
  {
    HeardWellStep(h, m, g);
    MoreDue(FirstWrite(h.b), writes, Said(h.b, h.heard), Listed(Due(g)));
  }

  lemma HearingLedger(h: Handler, writes: seq<AgentMsg>, m: ClientMsg)
    requires h.pc.Reading? && Ledger(h, writes)
    ensures Ledger(OnMessage(h, m).h, writes)
  {
    MessageIsHeard(h, m);
    HeardLedger(h, writes, m, OnMessage(h, m).h);
  }

  /** Recording the answers of the gates changes no message. */
  lemma NotedMessages(h: Handler, writable: bool, writer: bool)
    requires HeardWell(h) && AwaitsGate(h)
    ensures var g := Noted(h, writable, writer);
      && g.b == h.b && g.view == h.view == ViewAfter(g.b, g.heard)
      && (forall k :: 0 <= k < |g.heard| ==> !EndsLoop(g.b, g.heard[k].msg))
      && (g.requested ==> AskedToWrite(g))
  {
    var g := Noted(h, writable, writer);
    var n := |h.heard| - 1;
    assert g.heard[..n] == h.heard[..n];
    if h.requested {
      var k :| 0 <= k < |h.heard| && h.heard[k].msg == RequestWrite;
      assert g.heard[k].msg == RequestWrite;
    }
  }

  /** It adds the frame exactly when both answered yes. */
  lemma NotedSaid(h: Handler, writable: bool, writer: bool)
    requires HeardWell(h) && AwaitsGate(h)
    ensures Said(h.b, Noted(h, writable, writer).heard) == Said(h.b, h.heard) +
      Listed(Say(h.b, h.view, Heard(Binary(h.pc.typing.data), writable, writer)))
  {
    var n := |h.heard| - 1;
    var front, last := h.heard[..n], h.heard[n];
    var noted := Heard(last.msg, writable, writer);
    assert h.heard == front + [last];
    assert Noted(h, writable, writer).heard == front + [noted];
    SaidStep(h.b, front, last);
    SaidStep(h.b, front, noted);
    assert Said(h.b, front) + [] == Said(h.b, front);
  }

  /** Noting the answers keeps the ledger of a handler that goes on to the next gate, to sending the
      frame that both gates let pass, or back to reading when they let nothing pass. */
  lemma GateLedger(h: Handler, writes: seq<AgentMsg>, writable: bool, writer: bool, pc: Pc)
    requires Ledger(h, writes) && AwaitsGate(h)
    requires pc == Reading || pc.Typing?
    requires AwaitsGate(h.(pc := pc)) ==> pc == Typing(InWriter(h.pc.typing.data)) && writable && !writer
    requires Due(h.(pc := pc)) == Say(h.b, h.view, Heard(Binary(h.pc.typing.data), writable, writer))
    ensures Ledger(Noted(h, writable, writer).(pc := pc), writes)
  {
    NotedMessages(h, writable, writer);
    NotedSaid(h, writable, writer);
    var g := Noted(h, writable, writer);
    assert AskedToWrite(g) ==> AskedToWrite(g.(pc := pc));
    MoreDue(FirstWrite(h.b), writes, Said(h.b, h.heard), Listed(Due(h.(pc := pc))));
  }

  lemma LockGateLedger(h: Handler, data: Bytes, writes: seq<AgentMsg>, r: Agents)
    requires h.pc == Typing(InLock(data)) && Ledger(h, writes)
    ensures Ledger(OnTyping(h, InLock(data), r).h, writes)
  {
    GateLedger(h, writes, true, false, Typing(InWriter(data)));
  }

  lemma WriterGateLedger(h: Handler, data: Bytes, writes: seq<AgentMsg>, r: Agents)
    requires h.pc == Typing(InWriter(data)) && Ledger(h, writes)
    ensures Ledger(OnTyping(h, InWriter(data), r).h, writes)
  {
    match FrameFor(h.b, h.view, data)
    case Some(f) => GateLedger(h, writes, true, true, Typing(Forwarding(f)));
    case None => GateLedger(h, writes, true, true, Reading);
  }

  lemma WroteLedger(h: Handler, writes: seq<AgentMsg>, g: Handler)
    requires Ledger(h, writes) && g.b == h.b && !IsUnmet(h) && Due(g).None?
    requires g.view == h.view && g.heard == h.heard && g.requested == h.requested && !AwaitsGate(g)
    requires (Leaving(h) ==> Leaving(g)) && (IsUnmet(g) ==> g.pc.Done?)
    ensures Ledger(g, writes + Listed(Due(h)))
  {
  }

  lemma UnmetLedger(h: Handler, writes: seq<AgentMsg>, g: Handler)
    requires Ledger(h, writes) && g.b == h.b && IsUnmet(h) && KeepsHistory(h, g)
    requires IsUnmet(g) || g.pc == Greeting(TellingAgent)
    requires h.pc.Done? ==> g.pc.Done?
    ensures Ledger(g, writes)
  {
  }

  lemma {:induction false} LedgerStep(h: Handler, writes: seq<AgentMsg>, r: Agents, nextId: ClientId, input: Input)
    requires Ledger(h, writes)
    ensures Ledger(React(h, r, nextId, input).h, writes + Listed(Due(h)))
  {
    assert writes + [] == writes;
    TurnFits(h, r, nextId, input);
    var g := React(h, r, nextId, input).h;
    match h.pc
    case Typing(InLock(data)) => LockGateLedger(h, data, writes, r);
    case Typing(InWriter(data)) => WriterGateLedger(h, data, writes, r);
    case Typing(Forwarding(_)) => WroteLedger(h, writes, g);
    case Reading =>
      if input.Hear? {
        HearingLedger(h, writes, input.msg);
      }
    case Arriving(_) => UnmetLedger(h, writes, g);
    case Greeting(SettingSession) => UnmetLedger(h, writes, g);
    case Done => UnmetLedger(h, writes, g);
    case _ => WroteLedger(h, writes, g);
  }

  /** Whatever the handler had written before the step, its history accounts for it afterwards too. */
  ghost predicate KeepsLedger(h: Handler, e: Effect) {
    forall writes :: Ledger(h, writes) ==> Ledger(e.h, writes + Listed(Due(h)))
  }

  lemma TurnKeepsLedger(h: Handler, r: Agents, nextId: ClientId, input: Input)
    ensures KeepsLedger(h, React(h, r, nextId, input))
  {
    forall writes | Ledger(h, writes) ensures Ledger(React(h, r, nextId, input).h, writes + Listed(Due(h))) {
      LedgerStep(h, writes, r, nextId, input);
    }
  }

  // ----- every handler of a run

  /** Everything that handler x has written on agent connections, in order. */
  function WritesOf(wire: seq<AgentWrite>, x: nat): seq<AgentMsg> {
    if wire == [] then []
    else
      var w := wire[|wire| - 1];
      WritesOf(wire[..|wire| - 1], x) + (if w.from == x then [w.msg] else [])
  }

  lemma WritesOfAppend(wire: seq<AgentWrite>, w: AgentWrite, x: nat)
    ensures WritesOf(wire + [w], x) == WritesOf(wire, x) + if w.from == x then [w.msg] else []
  {
  }

  ghost predicate HistoryOk(s: HubState, x: nat)
    requires x < |s.handlers|
  {
    Ledger(s.handlers[x], WritesOf(s.wire, x))
  }

  lemma AdvanceKeepsHistory(s: HubState, i: nat, e: Effect, x: nat)
    requires i < |s.handlers| && x < |s.handlers| && e.wire == Due(s.handlers[i])
    requires HistoryOk(s, x) && KeepsLedger(s.handlers[i], e)
    ensures HistoryOk(Advance(s, i, e), x)
  {
    var h := s.handlers[i];
    if e.wire.Some? {
      WritesOfAppend(s.wire, AgentWrite(h.agentConn, i, e.wire.value), x);
    }
    assert WritesOf(s.wire, x) + [] == WritesOf(s.wire, x);
    assert x == i ==> Ledger(e.h, WritesOf(s.wire, x) + Listed(Due(h)));
  }

  lemma NothingWrittenBefore(wire: seq<AgentWrite>, x: nat)
    requires forall w :: w in wire ==> w.from < x
    ensures WritesOf(wire, x) == []
  {
  }

  lemma TurnKeepsHistory(s: HubState, i: nat, input: Input, x: nat)
    requires i < |s.handlers| && x < |s.handlers| && HistoryOk(s, x)
    ensures HistoryOk(Advance(s, i, Turned(s, i, input)), x)
  {
    var h := s.handlers[i];
    TurnFits(h, s.agents, s.lastId + 1, input);
    TurnKeepsLedger(h, s.agents, s.lastId + 1, input);
    AdvanceKeepsHistory(s, i, Turned(s, i, input), x);
  }

  lemma StepKeepsHistory(s: HubState, act: Action, t: HubState, x: nat)
    requires Steps(s, act, t) && WritersExist(s)
    requires x < |s.handlers| ==> HistoryOk(s, x)
    ensures x < |t.handlers| ==> HistoryOk(t, x)
  {
    if act.Turn? {
      if act.i < |s.handlers| && x < |s.handlers| {
        TurnKeepsHistory(s, act.i, act.input, x);
      }
    } else if x == |s.handlers| < |t.handlers| {
      NothingWrittenBefore(s.wire, x);
    }
  }

  lemma {:induction false} HistoryHolds(states: seq<HubState>, acts: seq<Action>, k: nat, x: nat)
    requires IsRun(states, acts) && k < |states| && x < |states[k].handlers|
    ensures HistoryOk(states[k], x)
  {
    if k > 0 {
      assert StepsAt(states, acts, k - 1);
      if x < |states[k - 1].handlers| {
        HistoryHolds(states, acts, k - 1, x);
      }
      WritersExistInRuns(states, acts, k - 1);
      StepKeepsHistory(states[k - 1], acts[k - 1], states[k], x);
    }
  }

  /** Under every interleaving, any handler, also one that has left, has written to its agent the attach
      of the handshake and then, with what it writes next, exactly what the history of what it heard
      makes it say: attaches, detaches, resizes and input frames, in order. The exception is a handler
      that has not greeted its agent, which has written and heard nothing. */
  lemma WrittenIsHistory(states: seq<HubState>, acts: seq<Action>, k: nat, x: nat)
    requires IsRun(states, acts) && k < |states| && x < |states[k].handlers|
    ensures var h, writes := states[k].handlers[x], WritesOf(states[k].wire, x);
      || writes + Listed(Due(h)) == [FirstWrite(h.b)] + Said(h.b, h.heard)
      || (IsUnmet(h) && writes == [] && h.heard == [])
  {
    HistoryHolds(states, acts, k, x);
  }

  /** In every run all that a handler has written to its agent, after the attach of its handshake, stays
      within what its client may name: no attach of another session than the claimed one, above all. */
  lemma WrittenStaysWithin(states: seq<HubState>, acts: seq<Action>, k: nat, x: nat, n: nat)
    requires IsRun(states, acts) && k < |states| && x < |states[k].handlers|
    requires 0 < n < |WritesOf(states[k].wire, x)|
    ensures Within(states[k].handlers[x].b, WritesOf(states[k].wire, x)[n])
  {
    var h, writes := states[k].handlers[x], WritesOf(states[k].wire, x);
    WrittenIsHistory(states, acts, k, x);
    SaidStaysWithin(h.b, h.heard, |h.heard|);
    assert writes[n] == (writes + Listed(Due(h)))[n] == ([FirstWrite(h.b)] + Said(h.b, h.heard))[n];
    assert Said(h.b, h.heard)[n - 1] == writes[n];
  }

  // ----- the input frames

  function Frames(writes: seq<AgentWrite>): seq<Bytes> {
    if writes == [] then []
    else
      var w := writes[|writes| - 1];
      Frames(writes[..|writes| - 1]) + (if w.msg.Input? then [w.msg.frame] else [])
  }

  lemma {:induction false} FramesAreInputFrames(wire: seq<AgentWrite>, x: nat)
    ensures Frames(Inputs(wire, x)) == InputFrames(WritesOf(wire, x))
  {
    if wire != [] {
      var front, w := wire[..|wire| - 1], wire[|wire| - 1];
      FramesAreInputFrames(front, x);
      var now := Inputs(front, x);
      InputFramesAppend(WritesOf(front, x), if w.from == x then [w.msg] else []);
      if w.from == x && w.msg.Input? {
        assert (now + [w])[..|now|] == now;
      } else {
        assert now + [] == now;
      }
    }
  }

  lemma {:induction false} InputFramesOfSum(a: seq<AgentMsg>, b: seq<AgentMsg>)
    ensures InputFrames(a + b) == InputFrames(a) + InputFrames(b)
  {
    if b == [] {
      assert a + b == a;
    } else {
      var n := |b| - 1;
      InputFramesOfSum(a, b[..n]);
      InputFramesAppend(a + b[..n], [b[n]]);
      InputFramesAppend(b[..n], [b[n]]);
      assert b[..n] + [b[n]] == b && (a + b[..n]) + [b[n]] == a + b;
      Append3(InputFrames(a), InputFrames(b[..n]), if b[n].Input? then [b[n].frame] else []);
    }
  }

  function DueFrame(h: Handler): seq<Bytes> {
    if AboutToForward(h) then [h.pc.typing.frame] else []
  }

  lemma SaidAfterFirst(b: Binding, heard: seq<Heard>)
    ensures InputFrames([FirstWrite(b)] + Said(b, heard)) == Forwarded(b, heard)
  {
    InputFramesOfSum([FirstWrite(b)], Said(b, heard));
    InputFramesAppend([], [FirstWrite(b)]);
    assert [] + [FirstWrite(b)] == [FirstWrite(b)];
    SaidFrames(b, heard, |heard|);
  }

  lemma LedgerFrames(h: Handler, writes: seq<AgentMsg>)
    requires Ledger(h, writes)
    ensures InputFrames(writes) + DueFrame(h) == Forwarded(h.b, h.heard)
  {
    if !(IsUnmet(h) && writes == [] && h.heard == []) {
      InputFramesAppend(writes, Listed(Due(h)));
      SaidAfterFirst(h.b, h.heard);
      assert InputFrames(writes) + [] == InputFrames(writes);
    }
  }

  /** Under every interleaving, the frames a handler has forwarded, with the one it may be about to
      forward, are exactly those that the history of what it heard lets pass. */
  lemma ForwardedIsHistory(states: seq<HubState>, acts: seq<Action>, k: nat, x: nat)
    requires IsRun(states, acts) && k < |states| && x < |states[k].handlers|
    ensures var h := states[k].handlers[x];
      Frames(Inputs(states[k].wire, x)) + DueFrame(h) == Forwarded(h.b, h.heard)
  {
    HistoryHolds(states, acts, k, x);
    FramesAreInputFrames(states[k].wire, x);
    LedgerFrames(states[k].handlers[x], WritesOf(states[k].wire, x));
  }

  // ----- who the writer is

  /** Handler x, and no other, has the id that agent a's state names as writer; it is registered with
      that agent, has not left, may write, and asked to. */
  ghost predicate HoldsPen(s: HubState, a: AgentId, x: nat) {
    && x < |s.handlers| && a in s.agents
    && var h := s.handlers[x];
    && h.id == s.agents[a].writer && Live(h) && h.b.claims.agent == a
    && h.b.claims.write && AskedToWrite(h)
    && (forall j :: 0 <= j < |s.handlers| && s.handlers[j].id == h.id ==> j == x)
  }

  /** In every reachable state the writer of a registered agent is a live handler of that agent that
      may write and asked to, also when the agent has registered anew over an old connection. */
  lemma WriterIsLive(states: seq<HubState>, acts: seq<Action>, k: nat, a: AgentId)
    requires IsRun(states, acts) && k < |states|
    requires a in states[k].agents && states[k].agents[a].writer != NO_CLIENT
    ensures exists x :: HoldsPen(states[k], a, x)
  {
    var s := states[k];
    InvHolds(states, acts, k);
    assert AgentOk(s, a);
    var x := s.owner[s.agents[a].writer];
    HistoryHolds(states, acts, k, x);
    forall j | 0 <= j < |s.handlers| && s.handlers[j].id == s.agents[a].writer ensures j == x {
      assert IdOk(s, j);
    }
    assert HoldsPen(s, a, x);
  }

  /** In every reachable state no client id is registered with two agents, and every registered client
      belongs to a live handler of that agent. */
  lemma ClientsBelongToOneAgent(states: seq<HubState>, acts: seq<Action>, k: nat, a: AgentId, c: ClientId)
    requires IsRun(states, acts) && k < |states|
    requires a in states[k].agents && c in states[k].agents[a].clients
    ensures LiveOn(states[k], a, c) && states[k].agents[a].clients[c].id == c
    ensures forall a' :: a' in states[k].agents && c in states[k].agents[a'].clients ==> a' == a
  {
    var s := states[k];
    InvHolds(states, acts, k);
    assert AgentOk(s, a) && ClientOk(s, a, c);
    forall a' | a' in s.agents && c in s.agents[a'].clients ensures a' == a {
      assert AgentOk(s, a') && ClientOk(s, a', c);
    }
  }

  /** The registry of a run is what its critical sections make of the empty registry, so that the
      theorems about `Registry.Run` hold of every run of the hub. */
  lemma {:induction false} RegistryFollowsOps(states: seq<HubState>, acts: seq<Action>, k: nat)
    requires IsRun(states, acts) && k < |states|
    ensures states[k].agents == Run(map[], states[k].ops)
  {
    if k > 0 {
      RegistryFollowsOps(states, acts, k - 1);
      assert StepsAt(states, acts, k - 1);
      StepKeepsOps(states[k - 1], acts[k - 1], states[k]);
    }
  }

  lemma StepKeepsOps(s: HubState, act: Action, t: HubState)
    requires Steps(s, act, t) && s.agents == Run(map[], s.ops)
    ensures t.agents == Run(map[], t.ops)
  {
  }
}
