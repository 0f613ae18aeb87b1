/** Safety of the hub under every interleaving of its critical sections, writes and reads. */
module HubBounds {
  import opened Registry
  import opened ClientLoop
  import opened HubSteps

  // ----- the input frames of one handler

  /** The input frames that handler x has written on agent connections. */
  function Inputs(wire: seq<AgentWrite>, x: nat): seq<AgentWrite> {
    if wire == [] then []
    else
      var last := wire[|wire| - 1];
      Inputs(wire[..|wire| - 1], x) + (if last.from == x && last.msg.Input? then [last] else [])
  }

  /** One step of handler i adds an input frame exactly when i was about to forward one. */
  lemma InputsStep(s: HubState, i: nat, e: Effect, x: nat)
    requires i < |s.handlers| && Gated(s.handlers[i], e, s.agents)
    ensures var h := s.handlers[i];
      Inputs(Advance(s, i, e).wire, x) == Inputs(s.wire, x) +
        if x == i && AboutToForward(h) then [AgentWrite(h.agentConn, i, AgentMsg.Input(h.pc.typing.frame))] else []
  {
  }

  /** Actions never remove a handler or change its binding, and change it only in its own turn. */
  lemma HandlerPersists(s: HubState, act: Action, t: HubState, x: nat)
    requires x < |s.handlers| && Steps(s, act, t)
    ensures x < |t.handlers| && t.handlers[x].b == s.handlers[x].b
    ensures (act.Turn? && act.i == x) || t.handlers[x] == s.handlers[x]
  {
    if act.Turn? && act.i < |s.handlers| {
      TurnFits(s.handlers[act.i], s.agents, s.lastId + 1, act.input);
    }
  }

  lemma {:induction false} HandlersPersist(states: seq<HubState>, acts: seq<Action>, i: nat, j: nat, x: nat)
    requires IsRun(states, acts) && i <= j < |states| && x < |states[i].handlers|
    ensures x < |states[j].handlers| && states[j].handlers[x].b == states[i].handlers[x].b
  {
    if i < j {
      HandlersPersist(states, acts, i, j - 1, x);
      assert StepsAt(states, acts, j - 1);
      HandlerPersists(states[j - 1], acts[j - 1], states[j], x);
    }
  }

  // ----- hand-over

  function FramesDue(h: Handler): nat {
    if AboutToForward(h) then 1 else 0
  }

  /** Input frames forwarded by handler x so far, and the one it cannot be stopped from forwarding. */
  function FrameBudget(s: HubState, x: nat): nat
    requires x < |s.handlers|
  {
    |Inputs(s.wire, x)| + FramesDue(s.handlers[x])
  }

  predicate NamesAsWriter(s: HubState, x: nat) {
    x < |s.handlers| && IsWriter(s.agents, s.handlers[x].b.claims.agent, s.handlers[x].id)
  }

  lemma {:induction false} HandOverStep(s: HubState, act: Action, t: HubState, x: nat)
    requires x < |s.handlers| && Steps(s, act, t) && !NamesAsWriter(s, x)
    ensures x < |t.handlers| && FrameBudget(t, x) == FrameBudget(s, x)
  {
    HandlerPersists(s, act, t, x);
    if act.Turn? && act.i < |s.handlers| {
      TurnFits(s.handlers[act.i], s.agents, s.lastId + 1, act.input);
      InputsStep(s, act.i, Turned(s, act.i, act.input), x);
    }
  }

  /** Hand-over bound: from any moment on, for as long as its agent's writer field does not name it, a
      handler forwards exactly as many input frames as were due and no longer are, so at most one,
      whatever the other handlers, the agent connections and the lock requests do. */
  lemma {:induction false} HandOverBound(states: seq<HubState>, acts: seq<Action>, i: nat, j: nat, x: nat)
    requires IsRun(states, acts) && i <= j < |states| && x < |states[i].handlers|
    requires forall k :: i <= k < j ==> !NamesAsWriter(states[k], x)
    ensures x < |states[j].handlers| && FrameBudget(states[j], x) == FrameBudget(states[i], x)
    ensures |Inputs(states[j].wire, x)| <= |Inputs(states[i].wire, x)| + 1
  {
    if i < j {
      HandOverBound(states, acts, i, j - 1, x);
      assert StepsAt(states, acts, j - 1);
      HandOverStep(states[j - 1], acts[j - 1], states[j], x);
    }
  }

  // ----- locking

  /** The frames handler x has forwarded and the times it has set itself as writer. */
  function Deeds(s: HubState, x: nat): nat {
    |Inputs(s.wire, x)| + multiset(s.grants)[x]
  }

  function DeedsDue(h: Handler): nat {
    if PassedLock(h) then 1 else 0
  }

  lemma LockAdvance(s: HubState, i: nat, e: Effect, x: nat)
    requires i < |s.handlers| && x < |s.handlers| && Gated(s.handlers[i], e, s.agents)
    requires e.h.b == s.handlers[i].b && !WebWritable(s.agents, s.handlers[x].b.claims.agent)
    ensures var t := Advance(s, i, e);
      Deeds(t, x) + DeedsDue(t.handlers[x]) <= Deeds(s, x) + DeedsDue(s.handlers[x])
  {
  }

  lemma LockTurn(s: HubState, i: nat, input: Input, x: nat)
    requires i < |s.handlers| && x < |s.handlers| && !WebWritable(s.agents, s.handlers[x].b.claims.agent)
    ensures var t := Advance(s, i, Turned(s, i, input));
      Deeds(t, x) + DeedsDue(t.handlers[x]) <= Deeds(s, x) + DeedsDue(s.handlers[x])
  {
    TurnFits(s.handlers[i], s.agents, s.lastId + 1, input);
    LockAdvance(s, i, Turned(s, i, input), x);
  }

  lemma LockStep(s: HubState, act: Action, t: HubState, x: nat)
    requires x < |s.handlers| && Steps(s, act, t) && !WebWritable(s.agents, s.handlers[x].b.claims.agent)
    ensures x < |t.handlers|
    ensures Deeds(t, x) + DeedsDue(t.handlers[x]) <= Deeds(s, x) + DeedsDue(s.handlers[x])
  {
    if act.Turn? && act.i < |s.handlers| {
      LockTurn(s, act.i, act.input, x);
    }
  }

  predicate Locks(s: HubState, act: Action, a: AgentId) {
    act.LockRequest? && act.a == a && !act.enabled && LockAccepted(s.agents, a, act.session)
  }

  /** A successful unlock of agent a, or a new registration of it. */
  predicate Reopens(s: HubState, act: Action, a: AgentId) {
    || (act.LockRequest? && act.a == a && act.enabled && LockAccepted(s.agents, a, act.session))
    || (act.AgentConnects? && act.a == a)
  }

  lemma LockedStaysLocked(s: HubState, act: Action, t: HubState, a: AgentId)
    requires Steps(s, act, t) && !Reopens(s, act, a)
    requires !WebWritable(s.agents, a) || Locks(s, act, a)
    ensures !WebWritable(t.agents, a)
  {
    if act.Turn? && act.i < |s.handlers| {
      TurnFits(s.handlers[act.i], s.agents, s.lastId + 1, act.input);
    }
  }

  lemma {:induction false} StaysLocked(states: seq<HubState>, acts: seq<Action>, l: nat, j: nat, a: AgentId)
    requires IsRun(states, acts) && l < j < |states|
    requires Locks(states[l], acts[l], a)
    requires forall k :: l < k < j ==> !Reopens(states[k], acts[k], a)
    ensures !WebWritable(states[j].agents, a)
  {
    assert StepsAt(states, acts, j - 1);
    if l + 1 < j {
      StaysLocked(states, acts, l, j - 1, a);
    }
    LockedStaysLocked(states[j - 1], acts[j - 1], states[j], a);
  }

  /** Lock bound: after a successful lock, until a successful unlock or a new registration, each client
      handler of the agent performs at most one more action in all out of forwarding an input frame
      and setting itself as writer, and none at all unless it was past the lock check before. */
  lemma {:induction false} LockBound(
      states: seq<HubState>, acts: seq<Action>, l: nat, j: nat, x: nat, a: AgentId)
    requires IsRun(states, acts) && l < j < |states|
    requires x < |states[l + 1].handlers| && states[l + 1].handlers[x].b.claims.agent == a
    requires Locks(states[l], acts[l], a)
    requires forall k :: l < k < j ==> !Reopens(states[k], acts[k], a)
    ensures x < |states[j].handlers|
    ensures !WebWritable(states[j].agents, a)
    ensures Deeds(states[j], x) + DeedsDue(states[j].handlers[x])
      <= Deeds(states[l + 1], x) + DeedsDue(states[l + 1].handlers[x])
    ensures Deeds(states[j], x) <= Deeds(states[l + 1], x) + 1
  {
    StaysLocked(states, acts, l, j, a);
    if l + 1 < j {
      LockBound(states, acts, l, j - 1, x, a);
      HandlersPersist(states, acts, l + 1, j - 1, x);
      assert StepsAt(states, acts, j - 1);
      LockStep(states[j - 1], acts[j - 1], states[j], x);
    }
  }

  // ----- handlers that connect later

  /** The traces name only handlers that exist. */
  ghost predicate WritersExist(s: HubState) {
    && (forall w :: w in s.wire ==> w.from < |s.handlers|)
    && (forall g :: g in s.grants ==> g < |s.handlers|)
  }

  lemma StepKeepsWriters(s: HubState, act: Action, t: HubState)
    requires Steps(s, act, t) && WritersExist(s)
    ensures WritersExist(t)
  {
  }

  lemma {:induction false} WritersExistInRuns(states: seq<HubState>, acts: seq<Action>, k: nat)
    requires IsRun(states, acts) && k < |states|
    ensures WritersExist(states[k])
  {
    if k > 0 {
      WritersExistInRuns(states, acts, k - 1);
      assert StepsAt(states, acts, k - 1);
      StepKeepsWriters(states[k - 1], acts[k - 1], states[k]);
    }
  }

  lemma {:induction false} NoInputsBefore(wire: seq<AgentWrite>, x: nat)
    requires forall w :: w in wire ==> w.from < x
    ensures Inputs(wire, x) == []
  {
    if wire != [] {
      assert wire[|wire| - 1] in wire;
      NoInputsBefore(wire[..|wire| - 1], x);
    }
  }

  lemma NewHandlerDidNothing(s: HubState, act: Action, t: HubState, x: nat)
    requires Steps(s, act, t) && WritersExist(s) && |s.handlers| <= x < |t.handlers|
    ensures Deeds(t, x) + DeedsDue(t.handlers[x]) == 0
  {
    NoInputsBefore(s.wire, x);
    assert x !in s.grants;
  }

  /** The lock bound for the others: a handler that connects after a successful lock does nothing of the
      kind until a successful unlock or a new registration. */
  lemma {:induction false} LockKeepsNewcomersOut(
      states: seq<HubState>, acts: seq<Action>, l: nat, j: nat, x: nat, a: AgentId)
    requires IsRun(states, acts) && l < j < |states|
    requires |states[l + 1].handlers| <= x < |states[j].handlers| && states[j].handlers[x].b.claims.agent == a
    requires Locks(states[l], acts[l], a)
    requires forall k :: l < k < j ==> !Reopens(states[k], acts[k], a)
    ensures Deeds(states[j], x) + DeedsDue(states[j].handlers[x]) == 0
  {
    var s, t := states[j - 1], states[j];
    assert StepsAt(states, acts, j - 1);
    if x < |s.handlers| {
      HandlersPersist(states, acts, j - 1, j, x);
      LockKeepsNewcomersOut(states, acts, l, j - 1, x, a);
      StaysLocked(states, acts, l, j - 1, a);
      LockStep(s, acts[j - 1], t, x);
    } else {
      WritersExistInRuns(states, acts, j - 1);
      NewHandlerDidNothing(s, acts[j - 1], t, x);
    }
  }
}
