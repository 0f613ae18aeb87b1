/** The life of a client handler in the interleaved hub (internal/hub/hub.go:334-484): to which connection it
    writes, and which critical sections it enters in which order. */
module HubLives {
  import opened Wrappers
  import opened Registry
  import opened ClientLoop
  import opened HubSteps
  import opened HubBounds
  import opened HubGrants

  // ----- the connection of its agent

  /** In its step m, its first, handler x looked its agent up and found it registered with this connection. */
  predicate FoundAt(states: seq<HubState>, acts: seq<Action>, m: nat, x: nat, conn: ConnId)
    requires m < |acts| < |states|
  {
    && TurnOf(states[m], acts[m], x) && states[m].handlers[x].pc == Arriving(Lookup)
    && var a := states[m].handlers[x].b.claims.agent;
    && a in states[m].agents && states[m].agents[a].conn == conn
  }

  predicate FoundBefore(states: seq<HubState>, acts: seq<Action>, k: nat, x: nat, conn: ConnId)
    requires k < |states| == |acts| + 1
  {
    exists m :: 0 <= m < k && FoundAt(states, acts, m, x, conn)
  }

  /** The connection of a handler is the one it found, and it never changes. */
  predicate KeepsConn(h: Handler, e: Effect, r: Agents) {
    var a := h.b.claims.agent;
    if h.pc == Arriving(Lookup) then e.h.pc.Done? || (a in r && e.h.agentConn == r[a].conn)
    else e.h.agentConn == h.agentConn && e.h.pc != Arriving(Lookup)
  }

  lemma MessageKeepsConn(h: Handler, m: ClientMsg, r: Agents)
    requires h.pc.Reading?
    ensures KeepsConn(h, OnMessage(h, m), r)
  {
  }

  lemma ArriveKeepsConn(h: Handler, p: Arrive, r: Agents, nextId: ClientId)
    requires h.pc == Arriving(p)
    ensures KeepsConn(h, OnArrive(h, p, r, nextId), r)
  {
  }

  lemma StagesKeepConn(h: Handler, r: Agents, nextId: ClientId, input: Input)
    requires h.pc.Greeting? || h.pc.Requesting? || h.pc.Releasing? || h.pc.Typing?
    ensures KeepsConn(h, React(h, r, nextId, input), r)
  {
  }

  lemma BroadcastKeepsConn(h: Handler, p: Broadcast, leaving: bool, r: Agents, input: Input)
    requires h.pc == Broadcasting(p, leaving)
    ensures KeepsConn(h, OnBroadcast(h, p, leaving, r, input), r)
  {
  }

  lemma TurnKeepsConn(h: Handler, r: Agents, nextId: ClientId, input: Input)
    ensures KeepsConn(h, React(h, r, nextId, input), r)
  {
    match h.pc
    case Arriving(p) => ArriveKeepsConn(h, p, r, nextId);
    case Reading =>
      if input.Hear? {
        MessageKeepsConn(h, input.msg, r);
      }
    case Broadcasting(p, leaving) => BroadcastKeepsConn(h, p, leaving, r, input);
    case Greeting(_) => StagesKeepConn(h, r, nextId, input);
    case Requesting(_) => StagesKeepConn(h, r, nextId, input);
    case Releasing(_) => StagesKeepConn(h, r, nextId, input);
    case Typing(_) => StagesKeepConn(h, r, nextId, input);
    case _ =>
  }

  /** In every run a handler past its lookup, and not gone, holds the connection that it found. */
  lemma {:induction false} ConnWasFound(states: seq<HubState>, acts: seq<Action>, k: nat, x: nat)
    requires IsRun(states, acts) && k < |states| && x < |states[k].handlers|
    requires states[k].handlers[x].pc != Arriving(Lookup) && !states[k].handlers[x].pc.Done?
    ensures FoundBefore(states, acts, k, x, states[k].handlers[x].agentConn)
  {
    assert k > 0;
    var s, act := states[k - 1], acts[k - 1];
    assert StepsAt(states, acts, k - 1);
    if x < |s.handlers| {
      HandlerPersists(s, act, states[k], x);
      if TurnOf(s, act, x) {
        var h := s.handlers[x];
        TurnKeepsConn(h, s.agents, s.lastId + 1, act.input);
        TurnFits(h, s.agents, s.lastId + 1, act.input);
      }
      if TurnOf(s, act, x) && s.handlers[x].pc == Arriving(Lookup) {
        assert FoundAt(states, acts, k - 1, x, states[k].handlers[x].agentConn);
      } else {
        ConnWasFound(states, acts, k - 1, x);
        var m :| 0 <= m < k - 1 && FoundAt(states, acts, m, x, s.handlers[x].agentConn);
        assert FoundAt(states, acts, m, x, states[k].handlers[x].agentConn);
      }
    }
  }

  lemma WriteStep(s: HubState, act: Action, t: HubState)
    requires Steps(s, act, t)
    ensures t.wire == s.wire
      || (&& act.Turn? && act.i < |s.handlers| && Due(s.handlers[act.i]).Some?
          && t.wire == s.wire + [AgentWrite(s.handlers[act.i].agentConn, act.i, Due(s.handlers[act.i]).value)])
  {
    if act.Turn? && act.i < |s.handlers| {
      TurnFits(s.handlers[act.i], s.agents, s.lastId + 1, act.input);
    }
  }

  /** In every run everything that a handler writes goes to the connection with which its own agent was
      registered when it looked it up. */
  lemma {:induction false} WritesGoToOwnAgent(states: seq<HubState>, acts: seq<Action>, k: nat, n: nat)
    requires IsRun(states, acts) && k < |states| && n < |states[k].wire|
    ensures FoundBefore(states, acts, k, states[k].wire[n].from, states[k].wire[n].conn)
  {
    assert k > 0;
    var s, act := states[k - 1], acts[k - 1];
    var w := states[k].wire[n];
    assert StepsAt(states, acts, k - 1);
    WriteStep(s, act, states[k]);
    if n < |s.wire| {
      WritesGoToOwnAgent(states, acts, k - 1, n);
    } else {
      ConnWasFound(states, acts, k - 1, act.i);
    }
    var m :| 0 <= m < k - 1 && FoundAt(states, acts, m, w.from, w.conn);
    assert FoundAt(states, acts, m, w.from, w.conn);
  }

  // ----- the sections it enters

  /** The critical section of a stage that changes the registry, if it has one. */
  function SectionOf(h: Handler, r: Agents): Option<Op> {
    var a := h.b.claims.agent;
    if h.pc == Arriving(Adding) && a in r then Some(AddClient(a, Client(h.id, h.b.proto, h.b.claims.session)))
    else if h.pc == Greeting(SettingSession) then Some(SetSession(a, h.b.claims.session))
    else if h.pc == Requesting(Setting) then Some(SetWriter(a, h.id))
    else if h.pc == Releasing(Clearing) then Some(ClearWriter(a))
    else if h.pc.Removing? then Some(RemoveClient(a, h.id))
    else None
  }

  lemma ArriveEnters(h: Handler, p: Arrive, r: Agents, nextId: ClientId)
    requires h.pc == Arriving(p)
    ensures OnArrive(h, p, r, nextId).op == SectionOf(h, r)
  {
  }

  lemma GreetEnters(h: Handler, p: Greet, r: Agents, input: Input)
    requires h.pc == Greeting(p)
    ensures OnGreet(h, p, r, input).op == SectionOf(h, r)
  {
  }

  lemma BroadcastEnters(h: Handler, p: Broadcast, leaving: bool, r: Agents, input: Input)
    requires h.pc == Broadcasting(p, leaving)
    ensures OnBroadcast(h, p, leaving, r, input).op == SectionOf(h, r)
  {
  }

  lemma RequestEnters(h: Handler, p: Request, r: Agents)
    requires h.pc == Requesting(p)
    ensures OnRequest(h, p, r).op == SectionOf(h, r)
  {
  }

  lemma TurnEnters(h: Handler, r: Agents, nextId: ClientId, input: Input)
    ensures React(h, r, nextId, input).op == SectionOf(h, r)
  {
    TurnFits(h, r, nextId, input);
    match h.pc
    case Arriving(p) => ArriveEnters(h, p, r, nextId);
    case Greeting(p) => GreetEnters(h, p, r, input);
    case Requesting(p) => RequestEnters(h, p, r);
    case Broadcasting(p, leaving) => BroadcastEnters(h, p, leaving, r, input);
    case _ =>
  }

  /** The sections that handler x has entered, in order. */
  function EnteredBy(entered: seq<Entry>, x: nat): seq<Op> {
    if entered == [] then []
    else
      var e := entered[|entered| - 1];
      EnteredBy(entered[..|entered| - 1], x) + (if e.from == x then [e.op] else [])
  }

  /** What a handler enters first: it adds its client, with its protocol and session, and records the
      session of its claims. */
  function Entrance(h: Handler): seq<Op> {
    var a := h.b.claims.agent;
    [AddClient(a, Client(h.id, h.b.proto, h.b.claims.session)), SetSession(a, h.b.claims.session)]
  }

  /** The handler has entered first its client and its session, and since then has only taken the role
      for its own client or cleared it. */
  predicate LivesOn(h: Handler, ops: seq<Op>) {
    && Entrance(h) <= ops
    && forall i :: 2 <= i < |ops| ==>
         ops[i] == SetWriter(h.b.claims.agent, h.id) || ops[i] == ClearWriter(h.b.claims.agent)
  }

  /** It has lived, and last has removed its own client. */
  predicate HasLived(h: Handler, ops: seq<Op>) {
    ops != [] && LivesOn(h, ops[..|ops| - 1]) && ops[|ops| - 1] == RemoveClient(h.b.claims.agent, h.id)
  }

  /** The sections of a handler, by where it stands. */
  predicate Life(h: Handler, ops: seq<Op>) {
    match h.pc
    case Arriving(_) => ops == []
    case Greeting(SettingSession) => ops == Entrance(h)[..1]
    case Broadcasting(_, true) => HasLived(h, ops)
    case Done => ops == [] || HasLived(h, ops)
    case _ => LivesOn(h, ops)
  }

  function Listed(op: Option<Op>): seq<Op> {
    if op.Some? then [op.value] else []
  }

  lemma ArriveLives(h: Handler, p: Arrive, ops: seq<Op>, r: Agents, nextId: ClientId)
    requires h.pc == Arriving(p) && Life(h, ops)
    ensures Life(OnArrive(h, p, r, nextId).h, ops + Listed(SectionOf(h, r)))
  {
  }

  lemma GreetLives(h: Handler, p: Greet, ops: seq<Op>, r: Agents, input: Input)
    requires h.pc == Greeting(p) && Life(h, ops)
    ensures Life(OnGreet(h, p, r, input).h, ops + Listed(SectionOf(h, r)))
  {
    assert ops + [] == ops;
  }

  lemma MessageLives(h: Handler, m: ClientMsg, ops: seq<Op>)
    requires h.pc.Reading? && Life(h, ops)
    ensures Life(OnMessage(h, m).h, ops)
  {
  }

  lemma RequestLives(h: Handler, p: Request, ops: seq<Op>, r: Agents)
    requires h.pc == Requesting(p) && Life(h, ops)
    ensures Life(OnRequest(h, p, r).h, ops + Listed(SectionOf(h, r)))
  {
    assert ops + [] == ops;
  }

  lemma ReleaseLives(h: Handler, p: Release, ops: seq<Op>, r: Agents)
    requires h.pc == Releasing(p) && Life(h, ops)
    ensures Life(OnRelease(h, p, r).h, ops + Listed(SectionOf(h, r)))
  {
    assert ops + [] == ops;
  }

  lemma TypingLives(h: Handler, p: Typing, ops: seq<Op>, r: Agents)
    requires h.pc == Typing(p) && Life(h, ops)
    ensures Life(OnTyping(h, p, r).h, ops)
  {
  }

  lemma BroadcastLives(h: Handler, p: Broadcast, leaving: bool, ops: seq<Op>, r: Agents, input: Input)
    requires h.pc == Broadcasting(p, leaving) && Life(h, ops)
    ensures Life(OnBroadcast(h, p, leaving, r, input).h, ops)
  {
  }

  lemma OthersLive(h: Handler, ops: seq<Op>, r: Agents, nextId: ClientId, input: Input)
    requires h.pc.WritingAgent? || h.pc.Answering? || h.pc.Removing? || h.pc.Done?
    requires Life(h, ops)
    ensures Life(React(h, r, nextId, input).h, ops + Listed(SectionOf(h, r)))
  {
    assert ops + [] == ops;
    if h.pc.Removing? {
      var now := ops + Listed(SectionOf(h, r));
      assert now[..|now| - 1] == ops;
    }
  }

  lemma LaterStagesLive(h: Handler, ops: seq<Op>, r: Agents, nextId: ClientId, input: Input)
    requires Life(h, ops) && !h.pc.Arriving? && !h.pc.Greeting? && !h.pc.Reading? && !h.pc.Requesting?
    ensures Life(React(h, r, nextId, input).h, ops + Listed(SectionOf(h, r)))
  {
    assert ops + [] == ops;
    match h.pc
    case Releasing(p) => ReleaseLives(h, p, ops, r);
    case Typing(p) => TypingLives(h, p, ops, r);
    case Broadcasting(p, leaving) => BroadcastLives(h, p, leaving, ops, r, input);
    case _ => OthersLive(h, ops, r, nextId, input);
  }

  lemma TurnLives(h: Handler, ops: seq<Op>, r: Agents, nextId: ClientId, input: Input)
    requires Life(h, ops)
    ensures Life(React(h, r, nextId, input).h, ops + Listed(SectionOf(h, r)))
  {
    assert ops + [] == ops;
    match h.pc
    case Arriving(p) => ArriveLives(h, p, ops, r, nextId);
    case Greeting(p) => GreetLives(h, p, ops, r, input);
    case Reading =>
      if input.Hear? {
        MessageLives(h, input.msg, ops);
      }
    case Requesting(p) => RequestLives(h, p, ops, r);
    case _ => LaterStagesLive(h, ops, r, nextId, input);
  }

  lemma EntryStep(s: HubState, i: nat, e: Effect, x: nat)
    requires i < |s.handlers|
    ensures EnteredBy(Advance(s, i, e).entered, x) == EnteredBy(s.entered, x) + if i == x then Listed(e.op) else []
  {
    var t := Advance(s, i, e);
    if e.op.Some? {
      assert t.entered[..|s.entered|] == s.entered;
    }
    assert EnteredBy(s.entered, x) + [] == EnteredBy(s.entered, x);
  }

  ghost predicate EntriesExist(s: HubState) {
    forall e :: e in s.entered ==> e.from < |s.handlers|
  }

  lemma {:induction false} NothingEnteredBefore(entered: seq<Entry>, x: nat)
    requires forall e :: e in entered ==> e.from < x
    ensures EnteredBy(entered, x) == []
  {
    if entered != [] {
      assert entered[|entered| - 1] in entered;
      NothingEnteredBefore(entered[..|entered| - 1], x);
    }
  }

  lemma EntriesStep(s: HubState, act: Action, t: HubState)
    requires Steps(s, act, t) && EntriesExist(s)
    ensures EntriesExist(t)
    ensures !act.Turn? || act.i >= |s.handlers| ==> t.entered == s.entered
  {
  }

  lemma {:induction false} EntriesExistInRuns(states: seq<HubState>, acts: seq<Action>, k: nat)
    requires IsRun(states, acts) && k < |states|
    ensures EntriesExist(states[k])
  {
    if k > 0 {
      EntriesExistInRuns(states, acts, k - 1);
      assert StepsAt(states, acts, k - 1);
      EntriesStep(states[k - 1], acts[k - 1], states[k]);
    }
  }

  /** Whatever the handler had entered before the step, its life goes on in order. */
  ghost predicate KeepsLife(h: Handler, e: Effect) {
    forall ops :: Life(h, ops) ==> Life(e.h, ops + Listed(e.op))
  }

  lemma TurnKeepsLife(h: Handler, r: Agents, nextId: ClientId, input: Input)
    ensures KeepsLife(h, React(h, r, nextId, input))
  {
    TurnEnters(h, r, nextId, input);
    forall ops | Life(h, ops)
      ensures Life(React(h, r, nextId, input).h, ops + Listed(React(h, r, nextId, input).op))
    {
      TurnLives(h, ops, r, nextId, input);
    }
  }

  lemma LifeOfAdvance(s: HubState, i: nat, e: Effect, x: nat)
    requires i < |s.handlers| && x < |s.handlers| && KeepsLife(s.handlers[i], e)
    requires Life(s.handlers[x], EnteredBy(s.entered, x))
    ensures Life(Advance(s, i, e).handlers[x], EnteredBy(Advance(s, i, e).entered, x))
  {
    var ops := EnteredBy(s.entered, x);
    EntryStep(s, i, e, x);
    assert ops + [] == ops;
    assert i == x ==> Life(e.h, ops + Listed(e.op));
  }

  lemma LifeOfTurn(s: HubState, i: nat, input: Input, x: nat)
    requires i < |s.handlers| && x < |s.handlers| && Life(s.handlers[x], EnteredBy(s.entered, x))
    ensures var t := Advance(s, i, Turned(s, i, input));
      Life(t.handlers[x], EnteredBy(t.entered, x))
  {
    TurnKeepsLife(s.handlers[i], s.agents, s.lastId + 1, input);
    LifeOfAdvance(s, i, Turned(s, i, input), x);
  }

  lemma LifeOfOther(s: HubState, act: Action, t: HubState, x: nat)
    requires Steps(s, act, t) && EntriesExist(s) && x < |t.handlers| && (!act.Turn? || act.i >= |s.handlers|)
    requires x < |s.handlers| ==> Life(s.handlers[x], EnteredBy(s.entered, x))
    ensures Life(t.handlers[x], EnteredBy(t.entered, x))
  {
    EntriesStep(s, act, t);
    if x >= |s.handlers| {
      NothingEnteredBefore(s.entered, x);
    }
  }

  /** In every run each handler enters its sections in the order of its life: it adds its client as what the
      handshake made it, records the session of its claims, takes and clears the role, and removes its
      client last, or it never gets to add it. */
  lemma {:induction false} LivesInOrder(states: seq<HubState>, acts: seq<Action>, k: nat, x: nat)
    requires IsRun(states, acts) && k < |states| && x < |states[k].handlers|
    ensures Life(states[k].handlers[x], EnteredBy(states[k].entered, x))
  {
    assert k > 0;
    var s, act := states[k - 1], acts[k - 1];
    assert StepsAt(states, acts, k - 1);
    EntriesExistInRuns(states, acts, k - 1);
    if x < |s.handlers| {
      LivesInOrder(states, acts, k - 1, x);
    }
    if act.Turn? && act.i < |s.handlers| {
      LifeOfTurn(s, act.i, act.input, x);
    } else {
      LifeOfOther(s, act, states[k], x);
    }
  }
}
