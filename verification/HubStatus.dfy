/** Exactly when a client of the interleaved hub was last told the truth about its role: the broadcast and
    the greeting read the writer and send it in separate steps (internal/hub/hub.go:367, 632-651). */
module HubStatus {
  import opened Wrappers
  import opened Registry
  import opened HubSteps
  import opened HubBounds
  import opened HubSerial
  import opened HubGrants

  // ----- what a stage does to the role

  /** The section of a stage that may change who is the writer. */
  function RoleOp(h: Handler): Option<Op> {
    var a := h.b.claims.agent;
    if h.pc == Requesting(Setting) then Some(SetWriter(a, h.id))
    else if h.pc == Releasing(Clearing) then Some(ClearWriter(a))
    else if h.pc.Removing? then Some(RemoveClient(a, h.id))
    else None
  }

  /** A step changes the role only in the section of its stage. */
  predicate RoleByStage(h: Handler, e: Effect) {
    if RoleOp(h).Some? then e.op == RoleOp(h)
    else e.op.None? || e.op.value.AddClient? || e.op.value.SetSession?
  }

  lemma GreetRole(h: Handler, p: Greet, r: Agents, input: Input)
    requires h.pc == Greeting(p)
    ensures RoleByStage(h, OnGreet(h, p, r, input))
  {
  }

  lemma RequestRole(h: Handler, p: Request, r: Agents)
    requires h.pc == Requesting(p)
    ensures RoleByStage(h, OnRequest(h, p, r))
  {
  }

  lemma BroadcastRole(h: Handler, p: Broadcast, leaving: bool, r: Agents, input: Input)
    requires h.pc == Broadcasting(p, leaving)
    ensures RoleByStage(h, OnBroadcast(h, p, leaving, r, input))
  {
  }

  lemma TurnRole(h: Handler, r: Agents, nextId: ClientId, input: Input)
    ensures RoleByStage(h, React(h, r, nextId, input))
  {
    TurnFits(h, r, nextId, input);
    match h.pc
    case Greeting(p) => GreetRole(h, p, r, input);
    case Requesting(p) => RequestRole(h, p, r);
    case Broadcasting(p, leaving) => BroadcastRole(h, p, leaving, r, input);
    case _ =>
  }

  // ----- how a client comes by the role and loses it

  /** The action is the `setWriter` of client c's own handler, on the registered agent a. */
  predicate Gains(s: HubState, act: Action, a: AgentId, c: ClientId) {
    && act.Turn? && AtSetting(s, act.i) && a in s.agents
    && s.handlers[act.i].b.claims.agent == a && s.handlers[act.i].id == c
  }

  /** The action is another handler's `setWriter` for agent a, a `clearWriter` for it, the departure of
      client c, a registration of the agent, or the departure of the agent. */
  predicate Drops(s: HubState, act: Action, a: AgentId, c: ClientId) {
    match act
    case AgentConnects(b, _) => b == a
    case AgentLeaves(b, conn) => b == a && a in s.agents && s.agents[a].conn == conn
    case Turn(i, _) =>
      && i < |s.handlers| && s.handlers[i].b.claims.agent == a
      && (match RoleOp(s.handlers[i])
          case Some(SetWriter(_, id)) => id != c
          case Some(RemoveClient(_, id)) => id == c
          case Some(_) => true
          case None => false)
    case _ => false
  }

  predicate Has(s: HubState, a: AgentId, c: ClientId) {
    Writer(s.agents, a) == c
  }

  lemma RoleTurn(s: HubState, i: nat, e: Effect, a: AgentId, c: ClientId, input: Input)
    requires i < |s.handlers| && c != NO_CLIENT && RoleByStage(s.handlers[i], e)
    requires e.op.Some? ==> e.op.value.a == s.handlers[i].b.claims.agent
    ensures Has(Advance(s, i, e), a, c) <==>
      Gains(s, Turn(i, input), a, c) || (Has(s, a, c) && !Drops(s, Turn(i, input), a, c))
  {
  }

  /** What any action does to the role of client c. */
  lemma RoleStep(s: HubState, act: Action, t: HubState, a: AgentId, c: ClientId)
    requires Steps(s, act, t) && c != NO_CLIENT
    ensures Has(t, a, c) <==> Gains(s, act, a, c) || (Has(s, a, c) && !Drops(s, act, a, c))
  {
    if act.Turn? && act.i < |s.handlers| {
      var e := Turned(s, act.i, act.input);
      TurnFits(s.handlers[act.i], s.agents, s.lastId + 1, act.input);
      TurnRole(s.handlers[act.i], s.agents, s.lastId + 1, act.input);
      RoleTurn(s, act.i, e, a, c, act.input);
    }
  }

  /** Client c gained the role of agent a between states i and j, and has not dropped it since. */
  predicate GainedSince(states: seq<HubState>, acts: seq<Action>, i: nat, j: nat, a: AgentId, c: ClientId)
    requires |states| == |acts| + 1 && j < |states|
  {
    exists m :: i <= m < j && Gains(states[m], acts[m], a, c) && Undropped(states, acts, m, j, a, c)
  }

  predicate Undropped(states: seq<HubState>, acts: seq<Action>, m: nat, j: nat, a: AgentId, c: ClientId)
    requires |states| == |acts| + 1 && j < |states|
  {
    forall n :: m < n < j ==> !Drops(states[n], acts[n], a, c)
  }

  /** Client c dropped the role of agent a between states i and j, and has not gained it since. */
  predicate DroppedSince(states: seq<HubState>, acts: seq<Action>, i: nat, j: nat, a: AgentId, c: ClientId)
    requires |states| == |acts| + 1 && j < |states|
  {
    exists m :: i <= m < j && Drops(states[m], acts[m], a, c) && Ungained(states, acts, m, j, a, c)
  }

  predicate Ungained(states: seq<HubState>, acts: seq<Action>, m: nat, j: nat, a: AgentId, c: ClientId)
    requires |states| == |acts| + 1 && j < |states|
  {
    forall n :: m < n < j ==> !Gains(states[n], acts[n], a, c)
  }

  lemma GainedStep(states: seq<HubState>, acts: seq<Action>, i: nat, j: nat, a: AgentId, c: ClientId)
    requires |states| == |acts| + 1 && i < j < |states|
    ensures GainedSince(states, acts, i, j, a, c) <==>
      || Gains(states[j - 1], acts[j - 1], a, c)
      || (!Drops(states[j - 1], acts[j - 1], a, c) && GainedSince(states, acts, i, j - 1, a, c))
  {
    if GainedSince(states, acts, i, j, a, c) {
      var m :| i <= m < j && Gains(states[m], acts[m], a, c) && Undropped(states, acts, m, j, a, c);
      assert m < j - 1 ==> Undropped(states, acts, m, j - 1, a, c);
    }
    if Gains(states[j - 1], acts[j - 1], a, c) {
      assert Undropped(states, acts, j - 1, j, a, c);
    } else if !Drops(states[j - 1], acts[j - 1], a, c) && GainedSince(states, acts, i, j - 1, a, c) {
      var m :| i <= m < j - 1 && Gains(states[m], acts[m], a, c) && Undropped(states, acts, m, j - 1, a, c);
      assert Undropped(states, acts, m, j, a, c);
    }
  }

  lemma DroppedStep(states: seq<HubState>, acts: seq<Action>, i: nat, j: nat, a: AgentId, c: ClientId)
    requires |states| == |acts| + 1 && i < j < |states|
    ensures DroppedSince(states, acts, i, j, a, c) <==>
      || Drops(states[j - 1], acts[j - 1], a, c)
      || (!Gains(states[j - 1], acts[j - 1], a, c) && DroppedSince(states, acts, i, j - 1, a, c))
  {
    if DroppedSince(states, acts, i, j, a, c) {
      var m :| i <= m < j && Drops(states[m], acts[m], a, c) && Ungained(states, acts, m, j, a, c);
      assert m < j - 1 ==> Ungained(states, acts, m, j - 1, a, c);
    }
    if Drops(states[j - 1], acts[j - 1], a, c) {
      assert Ungained(states, acts, j - 1, j, a, c);
    } else if !Gains(states[j - 1], acts[j - 1], a, c) && DroppedSince(states, acts, i, j - 1, a, c) {
      var m :| i <= m < j - 1 && Drops(states[m], acts[m], a, c) && Ungained(states, acts, m, j - 1, a, c);
      assert Ungained(states, acts, m, j, a, c);
    }
  }

  /** From state i on, a client without the role has it later exactly if it gained and kept it, and a
      client with the role is without it later exactly if it dropped it and did not gain it again. */
  lemma {:induction false} RoleExactly(
      states: seq<HubState>, acts: seq<Action>, i: nat, j: nat, a: AgentId, c: ClientId)
    requires IsRun(states, acts) && i <= j < |states| && c != NO_CLIENT
    ensures !Has(states[i], a, c) ==> (Has(states[j], a, c) <==> GainedSince(states, acts, i, j, a, c))
    ensures Has(states[i], a, c) ==> (!Has(states[j], a, c) <==> DroppedSince(states, acts, i, j, a, c))
  {
    if i < j {
      RoleExactly(states, acts, i, j - 1, a, c);
      assert StepsAt(states, acts, j - 1);
      RoleStep(states[j - 1], acts[j - 1], states[j], a, c);
      GainedStep(states, acts, i, j, a, c);
      DroppedStep(states, acts, i, j, a, c);
    }
  }

  // ----- telling a client its role

  /** The status message that a step of a handler sends, if any: its recipient and its content. */
  function StatusSent(h: Handler, input: Input): Option<(ClientId, bool)> {
    match h.pc
    case Greeting(TellingStatus(w)) => Some((h.id, w))
    case Broadcasting(Sending(todo, w), _) =>
      if input.Pick? && input.id in todo then Some((input.id, input.id == w)) else None
    case _ => None
  }

  predicate SendsByStage(h: Handler, e: Effect, input: Input) {
    match StatusSent(h, input)
    case Some((to, write)) => e.out == [Delivery(to, WriteStatus(write))]
    case None => NoStatus(e.out)
  }

  lemma GreetSends(h: Handler, p: Greet, r: Agents, input: Input)
    requires h.pc == Greeting(p)
    ensures SendsByStage(h, OnGreet(h, p, r, input), input)
  {
  }

  lemma BroadcastSends(h: Handler, p: Broadcast, leaving: bool, r: Agents, input: Input)
    requires h.pc == Broadcasting(p, leaving)
    ensures SendsByStage(h, OnBroadcast(h, p, leaving, r, input), input)
  {
  }

  lemma RequestSends(h: Handler, p: Request, r: Agents, input: Input)
    requires h.pc == Requesting(p)
    ensures SendsByStage(h, OnRequest(h, p, r), input)
  {
  }

  lemma TurnSends(h: Handler, r: Agents, nextId: ClientId, input: Input)
    ensures SendsByStage(h, React(h, r, nextId, input), input)
  {
    TurnFits(h, r, nextId, input);
    match h.pc
    case Greeting(p) => GreetSends(h, p, r, input);
    case Requesting(p) => RequestSends(h, p, r, input);
    case Broadcasting(p, leaving) => BroadcastSends(h, p, leaving, r, input);
    case _ =>
  }

  /** The action tells client c its role. */
  predicate Tells(s: HubState, act: Action, c: ClientId, write: bool) {
    act.Turn? && act.i < |s.handlers| && StatusSent(s.handlers[act.i], act.input) == Some((c, write))
  }

  lemma StatusStep(s: HubState, act: Action, t: HubState, c: ClientId)
    requires Steps(s, act, t)
    ensures (exists write :: Tells(s, act, c, write) && LastStatus(t.sent, c) == Some(write))
      || ((forall write :: !Tells(s, act, c, write)) && LastStatus(t.sent, c) == LastStatus(s.sent, c))
  {
    if act.Turn? && act.i < |s.handlers| {
      var h, e := s.handlers[act.i], Turned(s, act.i, act.input);
      TurnSends(h, s.agents, s.lastId + 1, act.input);
      match StatusSent(h, act.input)
      case Some((to, write)) =>
        LastStatusAppend(s.sent, Delivery(to, WriteStatus(write)), c);
        assert to == c ==> Tells(s, act, c, write);
      case None => NoStatusChange(s.sent, e.out, c);
    }
  }

  // ----- what was read before it was told

  /** The handler has read the writer of its agent for what it sends next. */
  predicate HasRead(h: Handler) {
    (h.pc.Greeting? && h.pc.greet.TellingStatus?) || (h.pc.Broadcasting? && h.pc.cast.Sending?)
  }

  /** In this step the handler reads it. */
  predicate Reads(h: Handler) {
    h.pc == Greeting(AskingStatus) || (h.pc.Broadcasting? && h.pc.cast.GettingWriter?)
  }

  /** Whether the handler will tell client c that it is the writer. */
  predicate WillSay(h: Handler, c: ClientId)
    requires HasRead(h)
  {
    if h.pc.Greeting? then h.pc.greet.write else c == h.pc.cast.writer
  }

  /** The clients whom the handler may tell. */
  predicate MayTell(h: Handler, c: ClientId)
    requires HasRead(h)
  {
    if h.pc.Greeting? then c == h.id else c in h.pc.cast.todo
  }

  /** What a handler will say it has read in this very step, or before. */
  ghost predicate ReadsFirst(h: Handler, e: Effect, r: Agents) {
    HasRead(e.h) ==>
      && (Reads(h) || HasRead(h)) && e.h.b == h.b
      && (Reads(h) ==> forall c :: MayTell(e.h, c) && c != NO_CLIENT ==>
            (WillSay(e.h, c) <==> Writer(r, h.b.claims.agent) == c))
      && (!Reads(h) ==> forall c :: MayTell(e.h, c) ==> MayTell(h, c) && (WillSay(e.h, c) <==> WillSay(h, c)))
  }

  lemma GreetReadsFirst(h: Handler, p: Greet, r: Agents, input: Input)
    requires h.pc == Greeting(p)
    ensures ReadsFirst(h, OnGreet(h, p, r, input), r)
  {
  }

  lemma BroadcastReadsFirst(h: Handler, p: Broadcast, leaving: bool, r: Agents, input: Input)
    requires h.pc == Broadcasting(p, leaving)
    ensures ReadsFirst(h, OnBroadcast(h, p, leaving, r, input), r)
  {
  }

  lemma ArriveReadsNothing(h: Handler, p: Arrive, r: Agents, nextId: ClientId)
    ensures !HasRead(OnArrive(h, p, r, nextId).h)
  {
  }

  lemma RequestReadsNothing(h: Handler, p: Request, r: Agents)
    ensures !HasRead(OnRequest(h, p, r).h)
  {
  }

  lemma TurnReadsFirst(h: Handler, r: Agents, nextId: ClientId, input: Input)
    ensures ReadsFirst(h, React(h, r, nextId, input), r)
  {
    TurnFits(h, r, nextId, input);
    match h.pc
    case Arriving(p) => ArriveReadsNothing(h, p, r, nextId);
    case Greeting(p) => GreetReadsFirst(h, p, r, input);
    case Requesting(p) => RequestReadsNothing(h, p, r);
    case Broadcasting(p, leaving) => BroadcastReadsFirst(h, p, leaving, r, input);
    case _ =>
  }

  /** A handler that is about to tell client c its role has read the writer in an earlier step, and will
      say what it read. */
  lemma {:induction false} WriterWasRead(states: seq<HubState>, acts: seq<Action>, m: nat, y: nat, c: ClientId)
      returns (r: nat)
    requires IsRun(states, acts) && m < |states| && y < |states[m].handlers| && c != NO_CLIENT
    requires HasRead(states[m].handlers[y]) && MayTell(states[m].handlers[y], c)
    ensures r < m && TurnOf(states[r], acts[r], y) && Reads(states[r].handlers[y])
    ensures WillSay(states[m].handlers[y], c) <==>
      Writer(states[r].agents, states[m].handlers[y].b.claims.agent) == c
  {
    assert m > 0;
    var s, act := states[m - 1], acts[m - 1];
    assert StepsAt(states, acts, m - 1);
    if y < |s.handlers| {
      HandlerPersists(s, act, states[m], y);
    }
    if TurnOf(s, act, y) {
      TurnReadsFirst(s.handlers[y], s.agents, s.lastId + 1, act.input);
    }
    if TurnOf(s, act, y) && Reads(s.handlers[y]) {
      r := m - 1;
    } else {
      r := WriterWasRead(states, acts, m - 1, y, c);
    }
  }

  // ----- whom a broadcast is for

  /** Client id c was given to a handler bound to agent a. */
  ghost predicate BoundTo(s: HubState, a: AgentId, c: ClientId) {
    c in s.owner && s.owner[c] < |s.handlers| && s.handlers[s.owner[c]].b.claims.agent == a
  }

  lemma BoundStep(s: HubState, act: Action, t: HubState, a: AgentId, c: ClientId)
    requires Inv(s) && Steps(s, act, t) && BoundTo(s, a, c)
    ensures BoundTo(t, a, c)
  {
    HandlerPersists(s, act, t, s.owner[c]);
  }

  lemma {:induction false} BoundPersists(
      states: seq<HubState>, acts: seq<Action>, i: nat, j: nat, a: AgentId, c: ClientId)
    requires IsRun(states, acts) && i <= j < |states| && BoundTo(states[i], a, c)
    ensures BoundTo(states[j], a, c)
  {
    if i < j {
      BoundPersists(states, acts, i, j - 1, a, c);
      InvHolds(states, acts, j - 1);
      assert StepsAt(states, acts, j - 1);
      BoundStep(states[j - 1], acts[j - 1], states[j], a, c);
    }
  }

  /** The ids of a broadcast that is under way. */
  function Audience(h: Handler): set<ClientId> {
    match h.pc
    case Broadcasting(GettingWriter(ids), _) => ids
    case Broadcasting(Sending(todo, _), _) => todo
    case _ => {}
  }

  /** A broadcast takes its clients from the registered agent and adds none later. */
  predicate AudienceFits(h: Handler, e: Effect, r: Agents) {
    e.h.b == h.b && (Audience(e.h) <= Audience(h) || Audience(e.h) == Snapshot(r, h.b.claims.agent).Keys)
  }

  lemma BroadcastAudience(h: Handler, p: Broadcast, leaving: bool, r: Agents, input: Input)
    requires h.pc == Broadcasting(p, leaving)
    ensures AudienceFits(h, OnBroadcast(h, p, leaving, r, input), r)
  {
  }

  lemma NoAudience(h: Handler, r: Agents, nextId: ClientId, input: Input)
    requires h.pc.Arriving? || h.pc.Greeting? || h.pc.Requesting? || h.pc.Releasing? || h.pc.Removing?
    ensures Audience(React(h, r, nextId, input).h) == {}
  {
  }

  lemma TurnAudience(h: Handler, r: Agents, nextId: ClientId, input: Input)
    ensures AudienceFits(h, React(h, r, nextId, input), r)
  {
    TurnFits(h, r, nextId, input);
    match h.pc
    case Broadcasting(p, leaving) => BroadcastAudience(h, p, leaving, r, input);
    case Arriving(_) => NoAudience(h, r, nextId, input);
    case Greeting(_) => NoAudience(h, r, nextId, input);
    case Requesting(_) => NoAudience(h, r, nextId, input);
    case Releasing(_) => NoAudience(h, r, nextId, input);
    case Removing => NoAudience(h, r, nextId, input);
    case _ =>
  }

  lemma {:induction false} AudienceIsBound(
      states: seq<HubState>, acts: seq<Action>, k: nat, y: nat, c: ClientId)
    requires IsRun(states, acts) && k < |states| && y < |states[k].handlers|
    requires c in Audience(states[k].handlers[y])
    ensures BoundTo(states[k], states[k].handlers[y].b.claims.agent, c)
  {
    assert k > 0;
    var s, act := states[k - 1], acts[k - 1];
    assert StepsAt(states, acts, k - 1);
    InvHolds(states, acts, k - 1);
    if y < |s.handlers| {
      var a := s.handlers[y].b.claims.agent;
      HandlerPersists(s, act, states[k], y);
      if TurnOf(s, act, y) {
        TurnAudience(s.handlers[y], s.agents, s.lastId + 1, act.input);
      }
      if c in Audience(s.handlers[y]) {
        AudienceIsBound(states, acts, k - 1, y, c);
      } else {
        assert AgentOk(s, a) && ClientOk(s, a, c);
      }
      BoundStep(s, act, states[k], a, c);
    }
  }

  // ----- status agreement in any run

  /** Client c is not told anything from state i up to state j. */
  ghost predicate Untold(states: seq<HubState>, acts: seq<Action>, i: nat, j: nat, c: ClientId)
    requires |states| == |acts| + 1 && j < |states|
  {
    forall n, write :: i <= n < j ==> !Tells(states[n], acts[n], c, write)
  }

  lemma {:induction false} LastTold(states: seq<HubState>, acts: seq<Action>, k: nat, c: ClientId) returns (m: nat)
    requires IsRun(states, acts) && k < |states| && LastStatus(states[k].sent, c).Some?
    ensures m < k && Tells(states[m], acts[m], c, LastStatus(states[k].sent, c).value)
    ensures Untold(states, acts, m + 1, k, c)
  {
    assert k > 0;
    var s, act := states[k - 1], acts[k - 1];
    assert StepsAt(states, acts, k - 1);
    StatusStep(s, act, states[k], c);
    if write :| Tells(s, act, c, write) {
      m := k - 1;
    } else {
      m := LastTold(states, acts, k - 1, c);
    }
  }

  /** In step m some handler last told client c of agent a its role, and what it said it had read in its
      step r. */
  ghost predicate ToldFrom(states: seq<HubState>, acts: seq<Action>, r: nat, m: nat, k: nat, a: AgentId, c: ClientId)
    requires IsRun(states, acts) && k < |states|
  {
    && r < m < k && Untold(states, acts, m + 1, k, c)
    && Tells(states[m], acts[m], c, Has(states[r], a, c))
    && TurnOf(states[r], acts[r], acts[m].i) && Reads(states[r].handlers[acts[m].i])
    && states[r].handlers[acts[m].i].b.claims.agent == a
  }

  lemma ToldFromSomewhere(states: seq<HubState>, acts: seq<Action>, k: nat, a: AgentId, c: ClientId)
      returns (r: nat, m: nat)
    requires IsRun(states, acts) && k < |states| && LastStatus(states[k].sent, c).Some?
    requires a in states[k].agents && c in states[k].agents[a].clients
    ensures ToldFrom(states, acts, r, m, k, a, c) && LastStatus(states[k].sent, c) == Some(Has(states[r], a, c))
  {
    m := LastTold(states, acts, k, c);
    var y := acts[m].i;
    var h := states[m].handlers[y];
    InvHolds(states, acts, k);
    assert AgentOk(states[k], a) && ClientOk(states[k], a, c);
    InvHolds(states, acts, m);
    assert IdOk(states[m], y);
    if h.pc.Broadcasting? {
      AudienceIsBound(states, acts, m, y, c);
    }
    assert BoundTo(states[m], h.b.claims.agent, c);
    BoundPersists(states, acts, m, k, h.b.claims.agent, c);
    r := WriterWasRead(states, acts, m, y, c);
    HandlersPersist(states, acts, r, m, y);
  }

  /** Status agreement in any run: a registered client that has been told its role was told what some
      handler had read. If that was that it is not the writer, this is wrong exactly when its own
      `setWriter` fell after the reading and it has not dropped the role since; if it was that it is the
      writer, this is wrong exactly when it dropped the role after the reading and has not gained it
      since. */
  lemma StatusExactly(states: seq<HubState>, acts: seq<Action>, k: nat, a: AgentId, c: ClientId)
      returns (r: nat, m: nat)
    requires IsRun(states, acts) && k < |states| && LastStatus(states[k].sent, c).Some?
    requires a in states[k].agents && c in states[k].agents[a].clients
    ensures ToldFrom(states, acts, r, m, k, a, c) && LastStatus(states[k].sent, c) == Some(Has(states[r], a, c))
    ensures !ToldTruth(states[k], a, c) <==>
      if LastStatus(states[k].sent, c) == Some(false) then GainedSince(states, acts, r, k, a, c)
      else DroppedSince(states, acts, r, k, a, c)
  {
    r, m := ToldFromSomewhere(states, acts, k, a, c);
    InvHolds(states, acts, k);
    assert AgentOk(states[k], a) && ClientOk(states[k], a, c) && IdsOk(states[k]);
    RoleExactly(states, acts, r, k, a, c);
  }
}
