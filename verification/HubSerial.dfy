/** What the hub promises when whole messages, attaches and departures are not interleaved: grants of
    the writer role are exclusive, and every client was last told the truth about its own role. */
module HubSerial {
  import opened Wrappers
  import opened Registry
  import opened ClientLoop
  import opened HubSteps

  // ----- serial runs

  /** Between two messages, before the attach, or after the departure. */
  predicate Resting(h: Handler) {
    h.pc == Arriving(Lookup) || h.pc.Reading? || h.pc.Done?
  }

  ghost predicate OthersRest(s: HubState, i: nat) {
    forall j :: 0 <= j < |s.handlers| && j != i ==> Resting(s.handlers[j])
  }

  ghost predicate AllRest(s: HubState) {
    forall j :: 0 <= j < |s.handlers| ==> Resting(s.handlers[j])
  }

  /** A handler moves only while all others rest, and agents and lock requests only while all rest. */
  ghost predicate Undisturbed(s: HubState, act: Action) {
    if act.Turn? then OthersRest(s, act.i) else AllRest(s)
  }

  ghost predicate IsSerialRun(states: seq<HubState>, acts: seq<Action>) {
    IsRun(states, acts) && forall k :: 0 <= k < |acts| ==> Undisturbed(states[k], acts[k])
  }

  // ----- what clients were last told

  function LastStatus(sent: seq<Delivery>, c: ClientId): Option<bool> {
    if sent == [] then None
    else
      var last := sent[|sent| - 1];
      if last.to == c && last.msg.WriteStatus? then Some(last.msg.write) else LastStatus(sent[..|sent| - 1], c)
  }

  /** Client c of agent a was last told whether it is the writer, correctly. */
  predicate ToldTruth(s: HubState, a: AgentId, c: ClientId)
    requires a in s.agents
  {
    LastStatus(s.sent, c) == Some(c == s.agents[a].writer)
  }

  /** The handler is about to tell client c of agent a, or to remove it. */
  predicate Owes(h: Handler, a: AgentId, c: ClientId) {
    && h.b.claims.agent == a
    && (match h.pc
        case Greeting(_) => c == h.id
        case Removing => c == h.id
        case Broadcasting(Sending(todo, _), _) => c in todo
        case Broadcasting(_, _) => true
        case _ => false)
  }

  ghost predicate Truthful(s: HubState, i: nat)
    requires i < |s.handlers|
  {
    forall a, c :: a in s.agents && c in s.agents[a].clients ==> ToldTruth(s, a, c) || Owes(s.handlers[i], a, c)
  }

  /** What the moving handler has learned is still so. */
  predicate Current(h: Handler, r: Agents) {
    var a := h.b.claims.agent;
    match h.pc
    case Greeting(TellingStatus(w)) => w == IsWriter(r, a, h.id)
    case Requesting(Setting) => WebWritable(r, a) && (Writer(r, a) == NO_CLIENT || Writer(r, a) == h.id)
    case Requesting(AskLock) => true
    case Requesting(_) => WebWritable(r, a)
    case Releasing(Clearing) => Writer(r, a) == h.id
    case Broadcasting(GettingWriter(ids), _) => ids == Snapshot(r, a).Keys
    case Broadcasting(Sending(todo, w), _) => w == Writer(r, a) && todo <= Snapshot(r, a).Keys
    case _ => true
  }

  ghost predicate SerialOk(s: HubState) {
    && (AllRest(s) ==> forall a, c :: a in s.agents && c in s.agents[a].clients ==> ToldTruth(s, a, c))
    && (forall i :: 0 <= i < |s.handlers| && OthersRest(s, i) ==> Truthful(s, i) && Current(s.handlers[i], s.agents))
  }

  // ----- one step of the moving handler

  lemma LastStatusAppend(sent: seq<Delivery>, d: Delivery, c: ClientId)
    ensures LastStatus(sent + [d], c) ==
      if d.to == c && d.msg.WriteStatus? then Some(d.msg.write) else LastStatus(sent, c)
  {
  }

  lemma NoStatusChange(sent: seq<Delivery>, out: seq<Delivery>, c: ClientId)
    requires NoStatus(out)
    ensures LastStatus(sent + out, c) == LastStatus(sent, c)
  {
    if out == [] {
      assert sent + out == sent;
    } else {
      assert out == [out[0]];
      LastStatusAppend(sent, out[0], c);
    }
  }

  /** The step keeps what its handler owes and knows in order. */
  ghost predicate KeepsWord(s: HubState, i: nat, e: Effect)
    requires i < |s.handlers|
  {
    var t := Advance(s, i, e);
    Truthful(t, i) && Current(e.h, t.agents)
  }

  ghost predicate InOrder(s: HubState, i: nat) {
    && Inv(s) && i < |s.handlers|
    && Truthful(s, i) && Current(s.handlers[i], s.agents)
  }

  /** A step that tells no role, and that owes whatever it changed and whatever was owed. */
  lemma UntoldStep(s: HubState, i: nat, e: Effect)
    requires InOrder(s, i) && NoStatus(e.out)
    requires forall a, c :: a in Advance(s, i, e).agents && c in Advance(s, i, e).agents[a].clients ==>
      || Owes(e.h, a, c)
      || (&& a in s.agents && c in s.agents[a].clients && !Owes(s.handlers[i], a, c)
          && (c == s.agents[a].writer <==> c == Advance(s, i, e).agents[a].writer))
    ensures Truthful(Advance(s, i, e), i)
  {
    var t := Advance(s, i, e);
    forall a, c | a in t.agents && c in t.agents[a].clients && !Owes(e.h, a, c) ensures ToldTruth(t, a, c) {
      assert ToldTruth(s, a, c);
      NoStatusChange(s.sent, e.out, c);
    }
  }

  lemma PlainInOrder(s: HubState, i: nat, e: Effect)
    requires InOrder(s, i) && IsPlain(s.handlers[i].pc) && Fits(s.handlers[i], e, s.lastId + 1)
    ensures KeepsWord(s, i, e)
  {
    UntoldStep(s, i, e);
  }

  lemma ArriveInOrder(s: HubState, i: nat, p: Arrive)
    requires InOrder(s, i) && s.handlers[i].pc == Arriving(p)
    ensures KeepsWord(s, i, OnArrive(s.handlers[i], p, s.agents, s.lastId + 1))
  {
    UntoldStep(s, i, OnArrive(s.handlers[i], p, s.agents, s.lastId + 1));
  }

  /** A client's own status is the last word to it and disturbs nobody else. */
  lemma GreetInOrder(s: HubState, i: nat, p: Greet, input: Input)
    requires InOrder(s, i) && s.handlers[i].pc == Greeting(p)
    ensures KeepsWord(s, i, OnGreet(s.handlers[i], p, s.agents, input))
  {
    var h := s.handlers[i];
    var e := OnGreet(h, p, s.agents, input);
    match p
    case TellingStatus(w) =>
      var t := Advance(s, i, e);
      forall a, c | a in t.agents && c in t.agents[a].clients ensures ToldTruth(t, a, c) {
        LastStatusAppend(s.sent, Delivery(h.id, WriteStatus(w)), c);
        assert AgentOk(s, a) && ClientOk(s, a, c) && IdOk(s, i);
        assert ToldTruth(s, a, c) || Owes(h, a, c);
      }
    case _ => UntoldStep(s, i, e);
  }

  lemma RequestInOrder(s: HubState, i: nat, p: Request)
    requires InOrder(s, i) && s.handlers[i].pc == Requesting(p)
    ensures KeepsWord(s, i, OnRequest(s.handlers[i], p, s.agents))
  {
    UntoldStep(s, i, OnRequest(s.handlers[i], p, s.agents));
  }

  lemma ReleaseInOrder(s: HubState, i: nat, p: Release)
    requires InOrder(s, i) && s.handlers[i].pc == Releasing(p)
    ensures KeepsWord(s, i, OnRelease(s.handlers[i], p, s.agents))
  {
    UntoldStep(s, i, OnRelease(s.handlers[i], p, s.agents));
  }

  lemma RemoveInOrder(s: HubState, i: nat)
    requires InOrder(s, i) && s.handlers[i].pc.Removing?
    ensures KeepsWord(s, i, React(s.handlers[i], s.agents, s.lastId + 1, Go))
  {
    assert IdOk(s, i);
    UntoldStep(s, i, React(s.handlers[i], s.agents, s.lastId + 1, Go));
  }

  lemma SendInOrder(s: HubState, i: nat, todo: set<ClientId>, w: ClientId, leaving: bool, id: ClientId)
    requires InOrder(s, i) && s.handlers[i].pc == Broadcasting(Sending(todo, w), leaving) && id in todo
    ensures KeepsWord(s, i, OnBroadcast(s.handlers[i], Sending(todo, w), leaving, s.agents, Pick(id)))
  {
  }

  lemma BroadcastInOrder(s: HubState, i: nat, p: Broadcast, leaving: bool, input: Input)
    requires InOrder(s, i) && s.handlers[i].pc == Broadcasting(p, leaving)
    requires !(p.Sending? && p.todo != {} && input.Pick? && input.id in p.todo)
    ensures KeepsWord(s, i, OnBroadcast(s.handlers[i], p, leaving, s.agents, input))
  {
    UntoldStep(s, i, OnBroadcast(s.handlers[i], p, leaving, s.agents, input));
  }

  lemma StagesInOrder(s: HubState, i: nat, input: Input, e: Effect)
    requires InOrder(s, i) && !IsPlain(s.handlers[i].pc) && !s.handlers[i].pc.Broadcasting?
    requires e == Turned(s, i, input)
    ensures KeepsWord(s, i, e)
  {
    match s.handlers[i].pc
    case Arriving(p) => ArriveInOrder(s, i, p);
    case Greeting(p) => GreetInOrder(s, i, p, input);
    case Requesting(p) => RequestInOrder(s, i, p);
    case Releasing(p) => ReleaseInOrder(s, i, p);
    case Removing => RemoveInOrder(s, i);
  }

  lemma TurnInOrder(s: HubState, i: nat, input: Input, e: Effect)
    requires InOrder(s, i) && e == Turned(s, i, input)
    ensures KeepsWord(s, i, e)
  {
    var h := s.handlers[i];
    if IsPlain(h.pc) {
      TurnFits(h, s.agents, s.lastId + 1, input);
      PlainInOrder(s, i, e);
    } else if h.pc.Broadcasting? {
      match h.pc.cast {
        case Sending(todo, w) =>
          if input.Pick? && input.id in todo {
            SendInOrder(s, i, todo, w, h.pc.leaving, input.id);
          } else {
            BroadcastInOrder(s, i, h.pc.cast, h.pc.leaving, input);
          }
        case _ => BroadcastInOrder(s, i, h.pc.cast, h.pc.leaving, input);
      }
    } else {
      StagesInOrder(s, i, input, e);
    }
  }

  // ----- serial runs stay in order

  lemma OrderAfterTurn(s: HubState, i: nat, e: Effect)
    requires i < |s.handlers| && OthersRest(s, i) && KeepsWord(s, i, e)
    ensures SerialOk(Advance(s, i, e)) && OthersRest(Advance(s, i, e), i)
  {
  }

  lemma OrderAfterOther(s: HubState, act: Action)
    requires SerialOk(s) && AllRest(s) && !act.Turn?
    ensures SerialOk(Fire(s, act)) && AllRest(Fire(s, act))
  {
  }

  lemma SerialTurn(s: HubState, i: nat, input: Input, e: Effect)
    requires Inv(s) && SerialOk(s) && i < |s.handlers| && OthersRest(s, i) && e == Turned(s, i, input)
    ensures SerialOk(Advance(s, i, e))
  {
    TurnInOrder(s, i, input, e);
    OrderAfterTurn(s, i, e);
  }

  lemma SerialStep(s: HubState, act: Action, t: HubState)
    requires Inv(s) && SerialOk(s) && Undisturbed(s, act) && Steps(s, act, t)
    ensures SerialOk(t)
  {
    if !act.Turn? {
      OrderAfterOther(s, act);
    } else if act.i < |s.handlers| {
      SerialTurn(s, act.i, act.input, Turned(s, act.i, act.input));
    }
  }

  lemma {:induction false} SerialRunsInOrder(states: seq<HubState>, acts: seq<Action>, k: nat)
    requires IsSerialRun(states, acts) && k < |states|
    ensures SerialOk(states[k])
  {
    if k > 0 {
      SerialRunsInOrder(states, acts, k - 1);
      InvHolds(states, acts, k - 1);
      assert StepsAt(states, acts, k - 1) && Undisturbed(states[k - 1], acts[k - 1]);
      SerialStep(states[k - 1], acts[k - 1], states[k]);
    }
  }

  /** Status agreement: in a serial run, whenever every handler rests, each client of a registered agent
      was last told that it is the writer exactly when it is; so at most one was last told so. */
  lemma StatusAgreement(states: seq<HubState>, acts: seq<Action>, k: nat, a: AgentId, c: ClientId, d: ClientId)
    requires IsSerialRun(states, acts) && k < |states| && AllRest(states[k])
    requires a in states[k].agents && c in states[k].agents[a].clients && d in states[k].agents[a].clients
    ensures LastStatus(states[k].sent, c) == Some(c == states[k].agents[a].writer)
    ensures LastStatus(states[k].sent, c) == LastStatus(states[k].sent, d) == Some(true) ==> c == d
  {
    SerialRunsInOrder(states, acts, k);
    assert ToldTruth(states[k], a, c) && ToldTruth(states[k], a, d);
  }

  // ----- exclusive grants

  /** In a serial run one step leaves the writer, clears it, or fills an empty place on behalf of the
      handler that moves, and then the agent is not locked. */
  lemma GrantStep(states: seq<HubState>, acts: seq<Action>, k: nat, a: AgentId)
    requires IsSerialRun(states, acts) && k < |acts|
    ensures var before, after := Writer(states[k].agents, a), Writer(states[k + 1].agents, a);
      after == before || after == NO_CLIENT ||
      (before == NO_CLIENT && WebWritable(states[k].agents, a)
       && acts[k].Turn? && acts[k].i < |states[k].handlers| && states[k].handlers[acts[k].i].id == after)
  {
    var s, act := states[k], acts[k];
    SerialRunsInOrder(states, acts, k);
    assert StepsAt(states, acts, k) && Undisturbed(s, act);
    if act.Turn? && act.i < |s.handlers| {
      TurnFits(s.handlers[act.i], s.agents, s.lastId + 1, act.input);
      WriterAfter(s, act.i, Turned(s, act.i, act.input), a);
      assert Current(s.handlers[act.i], s.agents);
    }
  }

  lemma WriterAfter(s: HubState, i: nat, e: Effect, a: AgentId)
    requires i < |s.handlers| && Fits(s.handlers[i], e, s.lastId + 1)
    ensures var before, after := Writer(s.agents, a), Writer(Advance(s, i, e).agents, a);
      after == before || after == NO_CLIENT ||
      (after == s.handlers[i].id && s.handlers[i].pc == Requesting(Setting) && s.handlers[i].b.claims.agent == a)
  {
  }

  /** Exclusive grants: in a serial run the writer passes from one client to another only through a
      moment in between at which the agent has no writer. */
  lemma {:induction false} ExclusiveGrants(states: seq<HubState>, acts: seq<Action>, i: nat, j: nat, a: AgentId)
    requires IsSerialRun(states, acts) && i <= j < |states|
    requires Writer(states[i].agents, a) != NO_CLIENT && Writer(states[j].agents, a) != NO_CLIENT
    requires Writer(states[i].agents, a) != Writer(states[j].agents, a)
    ensures exists k :: i < k < j && Writer(states[k].agents, a) == NO_CLIENT
    decreases j - i
  {
    GrantStep(states, acts, i, a);
    if Writer(states[i + 1].agents, a) == Writer(states[i].agents, a) {
      ExclusiveGrants(states, acts, i + 1, j, a);
    } else {
      assert Writer(states[i + 1].agents, a) == NO_CLIENT;
    }
  }

  /** In a serial run no client becomes the writer of a locked agent. */
  lemma NoGrantWhileLocked(states: seq<HubState>, acts: seq<Action>, k: nat, a: AgentId)
    requires IsSerialRun(states, acts) && k < |acts| && !WebWritable(states[k].agents, a)
    ensures var after := Writer(states[k + 1].agents, a);
      after == Writer(states[k].agents, a) || after == NO_CLIENT
  {
    GrantStep(states, acts, k, a);
  }

  /** In a serial run only the writer's own release clears the role. */
  lemma OnlyOwnRelease(states: seq<HubState>, acts: seq<Action>, k: nat)
    requires IsSerialRun(states, acts) && k < |acts| && acts[k].Turn? && acts[k].i < |states[k].handlers|
    requires states[k].handlers[acts[k].i].pc == Releasing(Clearing)
    ensures var h := states[k].handlers[acts[k].i];
      Writer(states[k].agents, h.b.claims.agent) == h.id
  {
    SerialRunsInOrder(states, acts, k);
    assert Undisturbed(states[k], acts[k]);
    assert Current(states[k].handlers[acts[k].i], states[k].agents);
  }

  // ----- a whole request, undisturbed

  /** Handler x takes n turns in a row. */
  function Turns(s: HubState, x: nat, n: nat): HubState
    decreases n
  {
    if n == 0 then s else Turns(Fire(s, Turn(x, Go)), x, n - 1)
  }

  /** Handler x has been refused for this reason and the registry is as it was, or it has become the
      writer and goes on to announce it. */
  predicate Decided(s: HubState, x: nat, refusal: Option<string>, t: HubState)
    requires x < |s.handlers|
  {
    && x < |t.handlers| && t.handlers[x].id == s.handlers[x].id && t.sent == s.sent && t.wire == s.wire
    && match refusal
       case Some(code) => t.agents == s.agents && t.handlers[x].pc == Answering(WriteDenied(code), false)
       case None =>
         && t.agents == Apply(s.agents, SetWriter(s.handlers[x].b.claims.agent, s.handlers[x].id))
         && t.handlers[x].pc == Broadcasting(Snapping, false)
  }

  /** What the checks from stage p on will find, if nobody interferes. */
  function Verdict(p: Request, r: Agents, a: AgentId, id: ClientId): Option<string> {
    match p
    case AskLock => WhyNotWriter(r, a, id, true)
    case AskHas => if HasWriter(r, a) && !IsWriter(r, a, id) then Some("another_writer") else None
    case AskIs => if !IsWriter(r, a, id) then Some("another_writer") else None
    case Setting => None
  }

  function StagesLeft(p: Request): nat {
    match p case AskLock => 4 case AskHas => 3 case AskIs => 2 case Setting => 1
  }

  /** One turn of a handler that is checking a request decides, or leads to a later check that will find
      the same. */
  lemma RequestTurn(s: HubState, x: nat, p: Request)
    requires x < |s.handlers| && s.handlers[x].pc == Requesting(p)
    ensures var t, h := Fire(s, Turn(x, Go)), s.handlers[x];
      var a := h.b.claims.agent;
      && x < |t.handlers|
      && if t.handlers[x].pc.Requesting? then
           && t.agents == s.agents && t.sent == s.sent && t.wire == s.wire
           && t.handlers[x].b == h.b && t.handlers[x].id == h.id
           && StagesLeft(t.handlers[x].pc.request) < StagesLeft(p)
           && Verdict(t.handlers[x].pc.request, s.agents, a, h.id) == Verdict(p, s.agents, a, h.id)
         else Decided(s, x, Verdict(p, s.agents, a, h.id), t)
  {
  }

  lemma {:induction false} RequestFromStage(s: HubState, x: nat, p: Request) returns (n: nat)
    requires x < |s.handlers| && s.handlers[x].pc == Requesting(p)
    ensures var h := s.handlers[x];
      Decided(s, x, Verdict(p, s.agents, h.b.claims.agent, h.id), Turns(s, x, n))
    decreases StagesLeft(p)
  {
    RequestTurn(s, x, p);
    var t := Fire(s, Turn(x, Go));
    if t.handlers[x].pc.Requesting? {
      n := RequestFromStage(t, x, t.handlers[x].pc.request);
      n := n + 1;
    } else {
      n := 1;
      assert Turns(t, x, 0) == t;
    }
  }

  /** Undisturbed, the separate critical sections of `request_write` amount to one decision on the state
      in which the message was read. */
  lemma RequestIsOneDecision(s: HubState, x: nat) returns (n: nat)
    requires x < |s.handlers| && s.handlers[x].pc.Reading?
    ensures var h := s.handlers[x];
      Decided(s, x, WhyNotWriter(s.agents, h.b.claims.agent, h.id, h.b.claims.write),
        Turns(Fire(s, Turn(x, Hear(RequestWrite))), x, n))
  {
    var s0 := Fire(s, Turn(x, Hear(RequestWrite)));
    if s.handlers[x].b.claims.write {
      n := RequestFromStage(s0, x, AskLock);
    } else {
      n := 0;
    }
  }
}
