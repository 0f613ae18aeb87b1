/** Exactly when the separate critical sections of `request_write` (internal/hub/hub.go:405-419) let a grant
    take the role from another client, or land on an agent that is not writable, in any run. */
module HubGrants {
  import opened Registry
  import opened ClientLoop
  import opened HubSteps
  import opened HubBounds
  import opened HubSerial

  /** The action is a turn of handler x. */
  predicate TurnOf(s: HubState, act: Action, x: nat) {
    act.Turn? && act.i == x < |s.handlers|
  }

  /** Handler x does nothing from state i up to state j. */
  ghost predicate Idle(states: seq<HubState>, acts: seq<Action>, i: nat, j: nat, x: nat)
    requires IsRun(states, acts) && j < |states|
  {
    forall k :: i <= k < j ==> !TurnOf(states[k], acts[k], x)
  }

  lemma {:induction false} IdleKeepsHandler(states: seq<HubState>, acts: seq<Action>, i: nat, j: nat, x: nat)
    requires IsRun(states, acts) && i <= j < |states| && x < |states[i].handlers|
    requires Idle(states, acts, i, j, x)
    ensures x < |states[j].handlers| && states[j].handlers[x] == states[i].handlers[x]
  {
    if i < j {
      IdleKeepsHandler(states, acts, i, j - 1, x);
      assert StepsAt(states, acts, j - 1) && !TurnOf(states[j - 1], acts[j - 1], x);
      HandlerPersists(states[j - 1], acts[j - 1], states[j], x);
    }
  }

  // ----- who holds the role

  /** The role is held by somebody other than handler x of agent a. */
  predicate HeldByOther(s: HubState, a: AgentId, x: nat)
    requires x < |s.handlers|
  {
    Writer(s.agents, a) != NO_CLIENT && Writer(s.agents, a) != s.handlers[x].id
  }

  /** The action is the `setWriter` section of a handler of agent a other than x. */
  predicate OtherGrant(s: HubState, act: Action, a: AgentId, x: nat) {
    && act.Turn? && act.i < |s.handlers| && act.i != x
    && s.handlers[act.i].pc == Requesting(Setting) && s.handlers[act.i].b.claims.agent == a
  }

  /** In every state after m up to j somebody holds the role. */
  predicate Held(states: seq<HubState>, m: nat, j: nat, a: AgentId)
    requires j < |states|
  {
    forall k :: m < k <= j ==> Writer(states[k].agents, a) != NO_CLIENT
  }

  /** Another handler of agent a was granted the role between states i and j, and somebody has held it
      ever since. */
  predicate GrantedMeanwhile(states: seq<HubState>, acts: seq<Action>, i: nat, j: nat, a: AgentId, x: nat)
    requires |states| == |acts| + 1 && j < |states|
  {
    exists m :: i <= m < j && OtherGrant(states[m], acts[m], a, x) && Held(states, m, j, a)
  }

  /** The `setWriter` section makes its handler the writer, if the agent is registered. */
  lemma SettingGrants(s: HubState, i: nat, input: Input)
    requires i < |s.handlers| && s.handlers[i].pc == Requesting(Setting)
    ensures var a := s.handlers[i].b.claims.agent;
      Writer(Advance(s, i, Turned(s, i, input)).agents, a) == if a in s.agents then s.handlers[i].id else NO_CLIENT
  {
  }

  /** What a turn of another handler does to the role, seen by a handler with an id. */
  lemma HoldersTurn(s: HubState, i: nat, input: Input, a: AgentId, x: nat)
    requires Inv(s) && i < |s.handlers| && x < |s.handlers| && i != x && s.handlers[x].id != NO_CLIENT
    ensures var before, after := Writer(s.agents, a), Writer(Advance(s, i, Turned(s, i, input)).agents, a);
      after == before || after == NO_CLIENT || (OtherGrant(s, Turn(i, input), a, x) && after != s.handlers[x].id)
    ensures OtherGrant(s, Turn(i, input), a, x) ==>
      Writer(Advance(s, i, Turned(s, i, input)).agents, a) != s.handlers[x].id
  {
    assert IdOk(s, i) && IdOk(s, x);
    TurnFits(s.handlers[i], s.agents, s.lastId + 1, input);
    WriterAfter(s, i, Turned(s, i, input), a);
    if OtherGrant(s, Turn(i, input), a, x) {
      SettingGrants(s, i, input);
    }
  }

  lemma OthersLeaveWriter(s: HubState, act: Action, a: AgentId)
    requires !act.Turn? || act.i >= |s.handlers|
    ensures var after := Writer(Fire(s, act).agents, a);
      after == Writer(s.agents, a) || after == NO_CLIENT
  {
  }

  /** What one action of anybody but x does to a role that x has or nobody has. */
  lemma HoldersStep(s: HubState, act: Action, t: HubState, a: AgentId, x: nat)
    requires Inv(s) && Steps(s, act, t) && x < |s.handlers| && !TurnOf(s, act, x)
    requires s.handlers[x].id != NO_CLIENT
    ensures x < |t.handlers| && t.handlers[x] == s.handlers[x]
    ensures HeldByOther(t, a, x) <==>
      Writer(t.agents, a) != NO_CLIENT && (HeldByOther(s, a, x) || OtherGrant(s, act, a, x))
  {
    HandlerPersists(s, act, t, x);
    if act.Turn? && act.i < |s.handlers| {
      HoldersTurn(s, act.i, act.input, a, x);
    } else {
      OthersLeaveWriter(s, act, a);
    }
  }

  /** From a state in which handler x or nobody holds the role, and while x does nothing, the role comes
      to be held by somebody else exactly when another handler was granted it and it has been held ever
      since. */
  lemma {:induction false} HeldByOtherExactly(
      states: seq<HubState>, acts: seq<Action>, i: nat, j: nat, a: AgentId, x: nat)
    requires IsRun(states, acts) && i <= j < |states| && x < |states[i].handlers|
    requires states[i].handlers[x].id != NO_CLIENT && !HeldByOther(states[i], a, x)
    requires Idle(states, acts, i, j, x)
    ensures x < |states[j].handlers| && states[j].handlers[x] == states[i].handlers[x]
    ensures HeldByOther(states[j], a, x) <==> GrantedMeanwhile(states, acts, i, j, a, x)
  {
    if i < j {
      var s, act, t := states[j - 1], acts[j - 1], states[j];
      HeldByOtherExactly(states, acts, i, j - 1, a, x);
      assert StepsAt(states, acts, j - 1) && !TurnOf(s, act, x);
      InvHolds(states, acts, j - 1);
      HoldersStep(s, act, t, a, x);
      MeanwhileStep(states, acts, i, j, a, x);
    }
  }

  /** The condition, one step later. */
  lemma MeanwhileStep(states: seq<HubState>, acts: seq<Action>, i: nat, j: nat, a: AgentId, x: nat)
    requires |states| == |acts| + 1 && i < j < |states|
    ensures GrantedMeanwhile(states, acts, i, j, a, x) <==>
      && Writer(states[j].agents, a) != NO_CLIENT
      && (OtherGrant(states[j - 1], acts[j - 1], a, x) || GrantedMeanwhile(states, acts, i, j - 1, a, x))
  {
    if GrantedMeanwhile(states, acts, i, j, a, x) {
      var m :| i <= m < j && OtherGrant(states[m], acts[m], a, x) && Held(states, m, j, a);
      assert m < j - 1 ==> Held(states, m, j - 1, a);
    }
    if Writer(states[j].agents, a) != NO_CLIENT {
      if OtherGrant(states[j - 1], acts[j - 1], a, x) {
        assert Held(states, j - 1, j, a);
      } else if GrantedMeanwhile(states, acts, i, j - 1, a, x) {
        var m :| i <= m < j - 1 && OtherGrant(states[m], acts[m], a, x) && Held(states, m, j - 1, a);
        assert Held(states, m, j, a);
      }
    }
  }

  // ----- a request and its checks

  /** Stage p of a request leads only to later stages, and to `setWriter` only from a check that found
      the role empty or the requester's own. */
  predicate ChecksFirst(h: Handler, e: Effect, r: Agents) {
    var a := h.b.claims.agent;
    && e.h.b == h.b
    && (e.h.pc == Requesting(AskLock) ==> h.pc.Reading?)
    && (e.h.pc.Requesting? && !e.h.pc.request.AskLock? ==> h.pc.Requesting? && !h.pc.request.Setting? && e.h.id == h.id)
    && (e.h.pc.Requesting? && h.pc == Requesting(AskLock) ==> e.h.pc == Requesting(AskHas) && WebWritable(r, a))
    && (e.h.pc == Requesting(AskHas) ==> h.pc == Requesting(AskLock))
    && (e.h.pc == Requesting(Setting) ==> Writer(r, a) == NO_CLIENT || Writer(r, a) == h.id)
  }

  lemma MessageChecksFirst(h: Handler, m: ClientMsg, r: Agents)
    requires h.pc.Reading?
    ensures ChecksFirst(h, OnMessage(h, m), r)
  {
  }

  lemma RequestChecksFirst(h: Handler, p: Request, r: Agents)
    requires h.pc == Requesting(p)
    ensures ChecksFirst(h, OnRequest(h, p, r), r)
  {
  }

  lemma BroadcastRequestsNothing(h: Handler, p: Broadcast, leaving: bool, r: Agents, input: Input)
    requires h.pc == Broadcasting(p, leaving)
    ensures !OnBroadcast(h, p, leaving, r, input).h.pc.Requesting?
  {
  }

  lemma TypingRequestsNothing(h: Handler, p: Typing, r: Agents)
    ensures !OnTyping(h, p, r).h.pc.Requesting?
  {
  }

  lemma GreetRequestsNothing(h: Handler, p: Greet, r: Agents, input: Input)
    ensures !OnGreet(h, p, r, input).h.pc.Requesting?
  {
  }

  lemma TurnChecksFirst(h: Handler, r: Agents, nextId: ClientId, input: Input)
    ensures ChecksFirst(h, React(h, r, nextId, input), r)
  {
    TurnFits(h, r, nextId, input);
    match h.pc
    case Reading =>
      if input.Hear? {
        MessageChecksFirst(h, input.msg, r);
      }
    case Requesting(p) => RequestChecksFirst(h, p, r);
    case Broadcasting(p, leaving) => BroadcastRequestsNothing(h, p, leaving, r, input);
    case Typing(p) => TypingRequestsNothing(h, p, r);
    case Greeting(p) => GreetRequestsNothing(h, p, r, input);
    case _ =>
  }

  /** Handler x stands before `setWriter`. */
  predicate AtSetting(s: HubState, x: nat) {
    x < |s.handlers| && s.handlers[x].pc == Requesting(Setting)
  }

  /** In state c handler x makes its last check for a writer. */
  predicate ChecksWriter(s: HubState, act: Action, x: nat) {
    TurnOf(s, act, x) && (s.handlers[x].pc == Requesting(AskHas) || s.handlers[x].pc == Requesting(AskIs))
  }

  /** In state c handler x makes its check of the lock. */
  predicate ChecksLock(s: HubState, act: Action, x: nat) {
    TurnOf(s, act, x) && s.handlers[x].pc == Requesting(AskLock)
  }

  lemma StepChecksFirst(states: seq<HubState>, acts: seq<Action>, k: nat, x: nat)
    requires IsRun(states, acts) && 0 < k < |states| && x < |states[k].handlers|
    requires states[k].handlers[x].pc.Requesting?
    ensures x < |states[k - 1].handlers|
    ensures TurnOf(states[k - 1], acts[k - 1], x) ==>
      exists e :: ChecksFirst(states[k - 1].handlers[x], e, states[k - 1].agents) && e.h == states[k].handlers[x]
    ensures !TurnOf(states[k - 1], acts[k - 1], x) ==> states[k].handlers[x] == states[k - 1].handlers[x]
  {
    var s, act := states[k - 1], acts[k - 1];
    assert StepsAt(states, acts, k - 1);
    if x < |s.handlers| {
      HandlerPersists(s, act, states[k], x);
      if TurnOf(s, act, x) {
        TurnChecksFirst(s.handlers[x], s.agents, s.lastId + 1, act.input);
        assert states[k].handlers[x] == Turned(s, x, act.input).h;
      }
    }
  }

  /** A handler that stands before `setWriter` has checked for a writer, found none but itself, and has
      done nothing since. */
  lemma {:induction false} WriterWasChecked(states: seq<HubState>, acts: seq<Action>, k: nat, x: nat) returns (c: nat)
    requires IsRun(states, acts) && k < |states| && AtSetting(states[k], x)
    ensures c < k && ChecksWriter(states[c], acts[c], x) && Idle(states, acts, c + 1, k, x)
    ensures states[c].handlers[x].id == states[k].handlers[x].id
    ensures states[c].handlers[x].b == states[k].handlers[x].b
    ensures !HeldByOther(states[c], states[k].handlers[x].b.claims.agent, x)
  {
    assert k > 0;
    StepChecksFirst(states, acts, k, x);
    if TurnOf(states[k - 1], acts[k - 1], x) {
      c := k - 1;
    } else {
      c := WriterWasChecked(states, acts, k - 1, x);
    }
  }

  /** In a turn that only checks, the registry stays as it is. */
  lemma CheckChangesNothing(s: HubState, act: Action, t: HubState, x: nat)
    requires Steps(s, act, t) && ChecksWriter(s, act, x)
    ensures t.agents == s.agents && x < |t.handlers| && t.handlers[x].id == s.handlers[x].id
  {
  }

  // ----- taking the role over

  /** Step k, a turn of handler x, is the `setWriter` of a request that last checked for a writer in
      step c, and another handler was granted the role in between and it has been held since. */
  ghost predicate Races(states: seq<HubState>, acts: seq<Action>, c: nat, k: nat, a: AgentId, x: nat)
    requires IsRun(states, acts) && k < |acts|
  {
    && c < k && TurnOf(states[k], acts[k], x) && AtSetting(states[k], x)
    && states[k].handlers[x].b.claims.agent == a
    && ChecksWriter(states[c], acts[c], x) && Idle(states, acts, c + 1, k, x)
    && GrantedMeanwhile(states, acts, c + 1, k, a, x)
  }

  /** The role passes in step k straight from one client to another. */
  predicate HandsOver(states: seq<HubState>, k: nat, a: AgentId)
    requires k + 1 < |states|
  {
    var before, after := Writer(states[k].agents, a), Writer(states[k + 1].agents, a);
    before != NO_CLIENT && after != NO_CLIENT && before != after
  }

  /** A grant takes the role from somebody else exactly when another handler was granted it after the
      last check of the request, and it has been held since. */
  lemma TakeoverExactly(states: seq<HubState>, acts: seq<Action>, k: nat, x: nat) returns (c: nat)
    requires IsRun(states, acts) && k < |acts| && AtSetting(states[k], x) && TurnOf(states[k], acts[k], x)
    ensures c < k && ChecksWriter(states[c], acts[c], x) && Idle(states, acts, c + 1, k, x)
    ensures var a := states[k].handlers[x].b.claims.agent;
      HandsOver(states, k, a) <==> GrantedMeanwhile(states, acts, c + 1, k, a, x)
  {
    var a := states[k].handlers[x].b.claims.agent;
    c := WriterWasChecked(states, acts, k, x);
    InvHolds(states, acts, k);
    assert IdOk(states[k], x);
    assert StepsAt(states, acts, c) && StepsAt(states, acts, k);
    CheckChangesNothing(states[c], acts[c], states[c + 1], x);
    HeldByOtherExactly(states, acts, c + 1, k, a, x);
    SettingGrants(states[k], x, acts[k].input);
  }

  /** Exclusive grants in any run: the role of an agent passes straight from one client to another in
      exactly those steps that race. */
  lemma HandsOverExactly(states: seq<HubState>, acts: seq<Action>, k: nat, a: AgentId)
    requires IsRun(states, acts) && k < |acts|
    ensures HandsOver(states, k, a) <==> exists c, x: nat :: Races(states, acts, c, k, a, x)
  {
    var s, act := states[k], acts[k];
    assert StepsAt(states, acts, k);
    if HandsOver(states, k, a) {
      if !act.Turn? || act.i >= |s.handlers| {
        OthersLeaveWriter(s, act, a);
      }
      TurnFits(s.handlers[act.i], s.agents, s.lastId + 1, act.input);
      WriterAfter(s, act.i, Turned(s, act.i, act.input), a);
      var c := TakeoverExactly(states, acts, k, act.i);
      assert Races(states, acts, c, k, a, act.i);
    }
    if c, x: nat :| Races(states, acts, c, k, a, x) {
      var d := TakeoverExactly(states, acts, k, x);
      SameCheck(states, acts, c, d, k, x);
    }
  }

  /** There is one last check. */
  lemma SameCheck(states: seq<HubState>, acts: seq<Action>, c: nat, d: nat, k: nat, x: nat)
    requires IsRun(states, acts) && k < |states| && c < k && d < k
    requires TurnOf(states[c], acts[c], x) && Idle(states, acts, c + 1, k, x)
    requires TurnOf(states[d], acts[d], x) && Idle(states, acts, d + 1, k, x)
    ensures c == d
  {
  }

  // ----- granting on a locked agent

  /** A successful lock of agent a, or its departure. */
  predicate Shuts(s: HubState, act: Action, a: AgentId) {
    || Locks(s, act, a)
    || (act.AgentLeaves? && act.a == a && a in s.agents && s.agents[a].conn == act.conn)
  }

  /** Between states i and j the agent was locked or left, and it has not been unlocked or registered
      again since. */
  predicate ShutMeanwhile(states: seq<HubState>, acts: seq<Action>, i: nat, j: nat, a: AgentId)
    requires |states| == |acts| + 1 && j < |states|
  {
    exists m :: i <= m < j && Shuts(states[m], acts[m], a) && NotReopened(states, acts, m, j, a)
  }

  predicate NotReopened(states: seq<HubState>, acts: seq<Action>, m: nat, j: nat, a: AgentId)
    requires |states| == |acts| + 1 && j < |states|
  {
    forall n :: m < n < j ==> !Reopens(states[n], acts[n], a)
  }

  /** What any action does to the lock. */
  lemma WritableStep(s: HubState, act: Action, t: HubState, a: AgentId)
    requires Steps(s, act, t)
    ensures WebWritable(t.agents, a) <==> Reopens(s, act, a) || (WebWritable(s.agents, a) && !Shuts(s, act, a))
  {
    if act.Turn? && act.i < |s.handlers| {
      TurnFits(s.handlers[act.i], s.agents, s.lastId + 1, act.input);
    }
  }

  lemma ShutStep(states: seq<HubState>, acts: seq<Action>, i: nat, j: nat, a: AgentId)
    requires |states| == |acts| + 1 && i < j < |states|
    ensures ShutMeanwhile(states, acts, i, j, a) <==>
      || Shuts(states[j - 1], acts[j - 1], a)
      || (!Reopens(states[j - 1], acts[j - 1], a) && ShutMeanwhile(states, acts, i, j - 1, a))
  {
    if ShutMeanwhile(states, acts, i, j, a) {
      var m :| i <= m < j && Shuts(states[m], acts[m], a) && NotReopened(states, acts, m, j, a);
      assert m < j - 1 ==> NotReopened(states, acts, m, j - 1, a);
    }
    if Shuts(states[j - 1], acts[j - 1], a) {
      assert NotReopened(states, acts, j - 1, j, a);
    } else if !Reopens(states[j - 1], acts[j - 1], a) && ShutMeanwhile(states, acts, i, j - 1, a) {
      var m :| i <= m < j - 1 && Shuts(states[m], acts[m], a) && NotReopened(states, acts, m, j - 1, a);
      assert NotReopened(states, acts, m, j, a);
    }
  }

  /** From a state in which the agent is writable, it is not writable later exactly when it was locked or
      left, and was neither unlocked nor registered again since. */
  lemma {:induction false} UnwritableExactly(states: seq<HubState>, acts: seq<Action>, i: nat, j: nat, a: AgentId)
    requires IsRun(states, acts) && i <= j < |states| && WebWritable(states[i].agents, a)
    ensures !WebWritable(states[j].agents, a) <==> ShutMeanwhile(states, acts, i, j, a)
  {
    if i < j {
      UnwritableExactly(states, acts, i, j - 1, a);
      assert StepsAt(states, acts, j - 1);
      WritableStep(states[j - 1], acts[j - 1], states[j], a);
      ShutStep(states, acts, i, j, a);
    }
  }

  /** From state l up to state k handler x has only checked for a writer. */
  ghost predicate OnlyChecks(states: seq<HubState>, acts: seq<Action>, l: nat, k: nat, x: nat)
    requires IsRun(states, acts) && k < |states|
  {
    forall m :: l <= m < k && TurnOf(states[m], acts[m], x) ==> ChecksWriter(states[m], acts[m], x)
  }

  /** A handler past its check of the lock made that check earlier in the same request, and found the
      agent writable. */
  lemma {:induction false} LockWasChecked(states: seq<HubState>, acts: seq<Action>, k: nat, x: nat) returns (l: nat)
    requires IsRun(states, acts) && k < |states| && x < |states[k].handlers|
    requires states[k].handlers[x].pc.Requesting? && !states[k].handlers[x].pc.request.AskLock?
    ensures l < k && ChecksLock(states[l], acts[l], x) && OnlyChecks(states, acts, l + 1, k, x)
    ensures WebWritable(states[l].agents, states[k].handlers[x].b.claims.agent)
  {
    assert k > 0;
    StepChecksFirst(states, acts, k, x);
    if TurnOf(states[k - 1], acts[k - 1], x) && states[k - 1].handlers[x].pc == Requesting(AskLock) {
      l := k - 1;
    } else {
      l := LockWasChecked(states, acts, k - 1, x);
    }
  }

  /** Respecting the lock in any run: a handler sets the writer of an agent that is not writable exactly
      when, since the request checked the lock, the agent was locked or left, and was neither unlocked
      nor registered again. */
  lemma LockedGrantExactly(states: seq<HubState>, acts: seq<Action>, k: nat, x: nat) returns (l: nat)
    requires IsRun(states, acts) && k < |acts| && AtSetting(states[k], x) && TurnOf(states[k], acts[k], x)
    ensures l < k && ChecksLock(states[l], acts[l], x) && OnlyChecks(states, acts, l + 1, k, x)
    ensures var a, id := states[k].handlers[x].b.claims.agent, states[k].handlers[x].id;
      && Writer(states[k + 1].agents, a) == (if a in states[k].agents then id else NO_CLIENT)
      && (!WebWritable(states[k].agents, a) <==> ShutMeanwhile(states, acts, l, k, a))
  {
    l := LockWasChecked(states, acts, k, x);
    UnwritableExactly(states, acts, l, k, states[k].handlers[x].b.claims.agent);
    assert StepsAt(states, acts, k);
    SettingGrants(states[k], x, acts[k].input);
  }

  // ----- releasing

  /** A handler clears the role only after it has found itself to be the writer. */
  predicate AsksFirst(h: Handler, e: Effect, r: Agents) {
    e.h.pc == Releasing(Clearing) ==>
      h.pc == Releasing(Asking) && e.h.b == h.b && e.h.id == h.id && IsWriter(r, h.b.claims.agent, h.id)
  }

  lemma TurnAsksFirst(h: Handler, r: Agents, nextId: ClientId, input: Input)
    ensures AsksFirst(h, React(h, r, nextId, input), r)
  {
    TurnFits(h, r, nextId, input);
    match h.pc
    case Arriving(p) => ArriveReleasesNothing(h, p, r, nextId);
    case Greeting(p) => GreetReleasesNothing(h, p, r, input);
    case Requesting(p) => RequestReleasesNothing(h, p, r);
    case Broadcasting(p, leaving) => BroadcastReleasesNothing(h, p, leaving, r, input);
    case _ =>
  }

  lemma ArriveReleasesNothing(h: Handler, p: Arrive, r: Agents, nextId: ClientId)
    ensures !OnArrive(h, p, r, nextId).h.pc.Releasing?
  {
  }

  lemma GreetReleasesNothing(h: Handler, p: Greet, r: Agents, input: Input)
    ensures !OnGreet(h, p, r, input).h.pc.Releasing?
  {
  }

  lemma RequestReleasesNothing(h: Handler, p: Request, r: Agents)
    ensures !OnRequest(h, p, r).h.pc.Releasing?
  {
  }

  lemma BroadcastReleasesNothing(h: Handler, p: Broadcast, leaving: bool, r: Agents, input: Input)
    requires h.pc == Broadcasting(p, leaving)
    ensures !OnBroadcast(h, p, leaving, r, input).h.pc.Releasing?
  {
  }

  lemma {:induction false} ReleaseWasAsked(states: seq<HubState>, acts: seq<Action>, k: nat, x: nat) returns (c: nat)
    requires IsRun(states, acts) && k < |states| && x < |states[k].handlers|
    requires states[k].handlers[x].pc == Releasing(Clearing)
    ensures c < k && TurnOf(states[c], acts[c], x) && states[c].handlers[x].pc == Releasing(Asking)
    ensures Idle(states, acts, c + 1, k, x)
    ensures var h := states[k].handlers[x]; IsWriter(states[c].agents, h.b.claims.agent, h.id)
  {
    assert k > 0;
    var s, act := states[k - 1], acts[k - 1];
    assert StepsAt(states, acts, k - 1);
    if x < |s.handlers| {
      HandlerPersists(s, act, states[k], x);
    }
    if TurnOf(s, act, x) {
      TurnAsksFirst(s.handlers[x], s.agents, s.lastId + 1, act.input);
      c := k - 1;
    } else {
      c := ReleaseWasAsked(states, acts, k - 1, x);
    }
  }

  lemma AskingChangesNothing(s: HubState, act: Action, t: HubState, x: nat)
    requires Steps(s, act, t) && TurnOf(s, act, x) && s.handlers[x].pc == Releasing(Asking)
    ensures t.agents == s.agents && x < |t.handlers| && t.handlers[x].id == s.handlers[x].id
  {
  }

  /** A release leaves the agent without a writer. It takes the role from somebody else exactly when, after
      the handler found itself to be the writer, another handler was granted the role and it has been
      held since. */
  lemma ReleaseExactly(states: seq<HubState>, acts: seq<Action>, k: nat, x: nat) returns (c: nat)
    requires IsRun(states, acts) && k < |acts| && TurnOf(states[k], acts[k], x)
    requires states[k].handlers[x].pc == Releasing(Clearing)
    ensures c < k && TurnOf(states[c], acts[c], x) && Idle(states, acts, c + 1, k, x)
    ensures var h := states[k].handlers[x]; var a := h.b.claims.agent;
      && IsWriter(states[c].agents, a, h.id)
      && Writer(states[k + 1].agents, a) == NO_CLIENT
      && (HeldByOther(states[k], a, x) <==> GrantedMeanwhile(states, acts, c + 1, k, a, x))
  {
    var a := states[k].handlers[x].b.claims.agent;
    c := ReleaseWasAsked(states, acts, k, x);
    InvHolds(states, acts, k);
    assert IdOk(states[k], x);
    assert StepsAt(states, acts, c) && StepsAt(states, acts, k);
    AskingChangesNothing(states[c], acts[c], states[c + 1], x);
    IdleKeepsHandler(states, acts, c + 1, k, x);
    HeldByOtherExactly(states, acts, c + 1, k, a, x);
  }
}
