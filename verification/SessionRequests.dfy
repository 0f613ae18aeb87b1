/** Asking an agent for its sessions (internal/hub/hub.go, `requestSessions` and `deliverSessions`) as a
    concurrent state machine: requesters, deliveries and timeouts interleave, one step for each critical
    section of `pendingMu`, each channel operation and each write. */
module SessionRequests {
  import opened Wrappers
  import opened MuxFrame

  type ReqId = nat
  type Names = seq<Bytes>

  /** The answer of `requestSessions`: a list, or an error. */
  type Answer = Option<Names>

  datatype AskPc = Starting | Inserting | Writing | Waiting | Deleting(answer: Answer) | Returned(answer: Answer)

  /** A call of `requestSessions` with its channel of capacity one. `accepted` records which deliveries
      the channel has accepted, in order. */
  datatype Request = Request(pc: AskPc, id: ReqId, buffer: Option<Names>, accepted: seq<nat>)

  datatype OfferPc = LookingUp | Offering(channel: nat) | Finished

  /** A call of `deliverSessions`; a channel is named by the request that made it. */
  datatype Delivery = Delivery(id: ReqId, names: Names, pc: OfferPc)

  datatype State = State(
    lastId: ReqId, asker: map<ReqId, nat>, pending: map<ReqId, nat>,
    requests: seq<Request>, deliveries: seq<Delivery>, asked: seq<ReqId>)

  const INITIAL := State(0, map[], map[], [], [], [])

  /** What happens next: a call begins, or one that has begun takes a step. A request is told whether it
      finds its agent and whether its timer fires. */
  datatype Event =
    | Ask
    | AskStep(i: nat, online: bool, timeout: bool)
    | Deliver(id: ReqId, names: Names)
    | DeliverStep(j: nat)

  function OnAsk(s: State, i: nat, online: bool, timeout: bool): State
    requires i < |s.requests|
  {
    var q := s.requests[i];
    match q.pc
    case Starting =>
      if !online then s.(requests := s.requests[i := q.(pc := Returned(None))])
      else
        var id := s.lastId + 1;
        s.(lastId := id, asker := s.asker[id := i], requests := s.requests[i := q.(pc := Inserting, id := id)])
    case Inserting => s.(pending := s.pending[q.id := i], requests := s.requests[i := q.(pc := Writing)])
    case Writing => s.(asked := s.asked + [q.id], requests := s.requests[i := q.(pc := Waiting)])
    case Waiting =>
      if timeout then s.(requests := s.requests[i := q.(pc := Deleting(None))])
      else if q.buffer.Some? then s.(requests := s.requests[i := q.(pc := Deleting(q.buffer), buffer := None)])
      else s
    case Deleting(a) => s.(pending := s.pending - {q.id}, requests := s.requests[i := q.(pc := Returned(a))])
    case Returned(_) => s
  }

  /** The channel accepts an offer that finds its buffer empty and drops any other; either way the
      delivery is finished. */
  function OnDeliver(s: State, j: nat): State
    requires j < |s.deliveries|
  {
    var d := s.deliveries[j];
    match d.pc
    case LookingUp =>
      var pc := if d.id in s.pending then Offering(s.pending[d.id]) else Finished;
      s.(deliveries := s.deliveries[j := d.(pc := pc)])
    case Offering(c) =>
      var s' := s.(deliveries := s.deliveries[j := d.(pc := Finished)]);
      if c < |s.requests| && s.requests[c].buffer.None? then
        var q := s.requests[c];
        s'.(requests := s.requests[c := q.(buffer := Some(d.names), accepted := q.accepted + [j])])
      else s'
    case Finished => s
  }

  function Next(s: State, e: Event): State {
    match e
    case Ask => s.(requests := s.requests + [Request(Starting, 0, None, [])])
    case AskStep(i, online, timeout) => if i < |s.requests| then OnAsk(s, i, online, timeout) else s
    case Deliver(id, names) => s.(deliveries := s.deliveries + [Delivery(id, names, LookingUp)])
    case DeliverStep(j) => if j < |s.deliveries| then OnDeliver(s, j) else s
  }

  function After(events: seq<Event>): State {
    if events == [] then INITIAL else Next(After(events[..|events| - 1]), events[|events| - 1])
  }

  // ----- what holds after any events

  predicate Answered(q: Request) {
    (q.pc.Deleting? || q.pc.Returned?) && q.pc.answer.Some?
  }

  /** An accepted delivery was made under the id of the request and is finished. */
  predicate AcceptedOk(s: State, q: Request, j: nat) {
    j < |s.deliveries| && s.deliveries[j].id == q.id && s.deliveries[j].pc.Finished?
  }

  /** The channel has accepted the value the request took, if any, and the one still in it, if any. */
  predicate ChannelOk(s: State, q: Request) {
    && |q.accepted| == (if Answered(q) then 1 else 0) + (if q.buffer.Some? then 1 else 0)
    && (forall k :: 0 <= k < |q.accepted| ==> AcceptedOk(s, q, q.accepted[k]))
    && (forall k, l :: 0 <= k < l < |q.accepted| ==> q.accepted[k] != q.accepted[l])
    && (Answered(q) ==> q.pc.answer.value == s.deliveries[q.accepted[0]].names)
    && (q.buffer.Some? ==> q.buffer.value == s.deliveries[q.accepted[|q.accepted| - 1]].names)
  }

  predicate IsPending(q: Request) {
    q.pc.Writing? || q.pc.Waiting? || q.pc.Deleting?
  }

  predicate RequestOk(s: State, i: nat)
    requires i < |s.requests|
  {
    var q := s.requests[i];
    && ChannelOk(s, q)
    && (q.id == 0 ==> (q.pc == Starting || q.pc == Returned(None)) && q.accepted == [])
    && (q.id != 0 ==> !q.pc.Starting? && q.id in s.asker && s.asker[q.id] == i)
    && (IsPending(q) ==> q.id in s.pending && s.pending[q.id] == i)
  }

  predicate DeliveryOk(s: State, j: nat)
    requires j < |s.deliveries|
  {
    var d := s.deliveries[j];
    d.pc.Offering? ==> d.id != 0 && d.pc.channel < |s.requests| && s.requests[d.pc.channel].id == d.id
  }

  ghost predicate Inv(s: State) {
    && (forall id :: id in s.asker ==> 0 < id <= s.lastId)
    && (forall i :: 0 <= i < |s.requests| ==> RequestOk(s, i))
    && (forall id :: id in s.pending ==> PendingOk(s, id))
    && (forall j :: 0 <= j < |s.deliveries| ==> DeliveryOk(s, j))
  }

  predicate PendingOk(s: State, id: ReqId)
    requires id in s.pending
  {
    var i := s.pending[id];
    id != 0 && i < |s.requests| && s.requests[i].id == id && IsPending(s.requests[i])
  }

  lemma AskKeepsOthers(s: State, i: nat, online: bool, timeout: bool, k: nat)
    requires Inv(s) && i < |s.requests| && k < |s.requests| && k != i
    ensures RequestOk(OnAsk(s, i, online, timeout), k)
  {
    assert RequestOk(s, i) && RequestOk(s, k);
    assert ChannelOk(s, s.requests[k]);
  }

  lemma AskKeepsItself(s: State, i: nat, online: bool, timeout: bool)
    requires Inv(s) && i < |s.requests|
    ensures RequestOk(OnAsk(s, i, online, timeout), i)
  {
    assert RequestOk(s, i);
    var q, t := s.requests[i], OnAsk(s, i, online, timeout);
    assert t.deliveries == s.deliveries && t.requests[i].accepted == q.accepted;
  }

  lemma AskKeepsPending(s: State, i: nat, online: bool, timeout: bool, id: ReqId)
    requires Inv(s) && i < |s.requests| && id in OnAsk(s, i, online, timeout).pending
    ensures PendingOk(OnAsk(s, i, online, timeout), id)
  {
    assert RequestOk(s, i);
    assert id in s.pending ==> PendingOk(s, id);
  }

  lemma AskKeepsInv(s: State, i: nat, online: bool, timeout: bool)
    requires Inv(s) && i < |s.requests|
    ensures Inv(OnAsk(s, i, online, timeout))
  {
    var t := OnAsk(s, i, online, timeout);
    assert RequestOk(s, i);
    forall k | 0 <= k < |t.requests| ensures RequestOk(t, k) {
      if k == i {
        AskKeepsItself(s, i, online, timeout);
      } else {
        AskKeepsOthers(s, i, online, timeout, k);
      }
    }
    forall id | id in t.pending ensures PendingOk(t, id) {
      AskKeepsPending(s, i, online, timeout, id);
    }
    forall j | 0 <= j < |t.deliveries| ensures DeliveryOk(t, j) {
      assert DeliveryOk(s, j);
    }
  }

  lemma OfferKeepsRequest(s: State, j: nat, k: nat)
    requires Inv(s) && j < |s.deliveries| && k < |s.requests|
    ensures RequestOk(OnDeliver(s, j), k)
  {
    assert DeliveryOk(s, j) && RequestOk(s, k);
    assert ChannelOk(s, s.requests[k]);
  }

  lemma OfferKeepsDelivery(s: State, j: nat, k: nat)
    requires Inv(s) && j < |s.deliveries| && k < |s.deliveries|
    ensures DeliveryOk(OnDeliver(s, j), k)
  {
    assert DeliveryOk(s, k);
    if k == j && s.deliveries[j].pc.LookingUp? && s.deliveries[j].id in s.pending {
      assert PendingOk(s, s.deliveries[j].id);
    }
  }

  lemma DeliverKeepsInv(s: State, j: nat)
    requires Inv(s) && j < |s.deliveries|
    ensures Inv(OnDeliver(s, j))
  {
    var t := OnDeliver(s, j);
    forall k | 0 <= k < |t.requests| ensures RequestOk(t, k) {
      OfferKeepsRequest(s, j, k);
    }
    forall id | id in t.pending ensures PendingOk(t, id) {
      assert PendingOk(s, id);
    }
    forall k | 0 <= k < |t.deliveries| ensures DeliveryOk(t, k) {
      OfferKeepsDelivery(s, j, k);
    }
  }

  lemma {:induction false} InvHolds(events: seq<Event>)
    ensures Inv(After(events))
  {
    if events != [] {
      var s := After(events[..|events| - 1]);
      InvHolds(events[..|events| - 1]);
      match events[|events| - 1]
      case AskStep(i, online, timeout) =>
        if i < |s.requests| {
          AskKeepsInv(s, i, online, timeout);
        }
      case DeliverStep(j) =>
        if j < |s.deliveries| {
          DeliverKeepsInv(s, j);
        }
      case Ask => CallsKeepInv(s, Ask);
      case Deliver(id, names) => CallsKeepInv(s, Deliver(id, names));
    }
  }

  lemma CallsKeepInv(s: State, e: Event)
    requires Inv(s) && (e.Ask? || e.Deliver?)
    ensures Inv(Next(s, e))
  {
    var t := Next(s, e);
    forall k | 0 <= k < |t.requests| ensures RequestOk(t, k) {
      assert k < |s.requests| ==> RequestOk(s, k);
    }
    forall id | id in t.pending ensures PendingOk(t, id) {
      assert PendingOk(s, id);
    }
    forall k | 0 <= k < |t.deliveries| ensures DeliveryOk(t, k) {
      assert k < |s.deliveries| ==> DeliveryOk(s, k);
    }
  }

  // ----- correlation

  /** A request that returns a list returns that of the first delivery its channel accepted, which was
      a delivery under the request's own id; and no other request has that id. */
  lemma AnswerIsOwnFirst(events: seq<Event>, i: nat)
    requires i < |After(events).requests| && After(events).requests[i].pc.Returned?
    requires After(events).requests[i].pc.answer.Some?
    ensures var s := After(events); var q := s.requests[i];
      && q.accepted != [] && q.accepted[0] < |s.deliveries|
      && s.deliveries[q.accepted[0]].id == q.id
      && q.pc.answer.value == s.deliveries[q.accepted[0]].names
      && forall k :: 0 <= k < |s.requests| && s.requests[k].id == q.id ==> k == i
  {
    var s := After(events);
    InvHolds(events);
    assert RequestOk(s, i);
    forall k | 0 <= k < |s.requests| && s.requests[k].id == s.requests[i].id ensures k == i {
      assert RequestOk(s, k);
    }
  }

  /** After any events a request is in the table of pending ones exactly from its insertion to its
      return, under its own id; a request that has returned never is. */
  lemma PendingExactlyWhileOpen(events: seq<Event>, i: nat)
    requires i < |After(events).requests| && After(events).requests[i].id != 0
    ensures var s := After(events);
      s.requests[i].id in s.pending <==> IsPending(s.requests[i])
  {
    var s := After(events);
    InvHolds(events);
    assert RequestOk(s, i);
    if s.requests[i].id in s.pending {
      assert PendingOk(s, s.requests[i].id);
      assert RequestOk(s, s.pending[s.requests[i].id]);
    }
  }

  /** A delivery never waits: looking up and offering are one step each, possible in every state, and
      an offer is accepted exactly when nothing has been accepted that the request has not taken. */
  lemma DeliveriesNeverBlock(events: seq<Event>, j: nat)
    requires j < |After(events).deliveries|
    ensures var s := After(events); var d := s.deliveries[j];
      && (d.pc.LookingUp? && d.id !in s.pending ==> OnDeliver(s, j).deliveries[j].pc.Finished?)
      && (d.pc.LookingUp? && d.id in s.pending ==>
            && var next := OnDeliver(s, j).deliveries[j].pc;
            && next.Offering? && next.channel < |s.requests| && s.requests[next.channel].id == d.id)
      && (d.pc.Offering? ==>
            && OnDeliver(s, j).deliveries[j].pc.Finished?
            && d.pc.channel < |s.requests|
            && var q, q' := s.requests[d.pc.channel], OnDeliver(s, j).requests[d.pc.channel];
            && q.id == d.id
            && q'.accepted == (if |q.accepted| == (if Answered(q) then 1 else 0) then q.accepted + [j] else q.accepted))
  {
    var s := After(events);
    InvHolds(events);
    assert DeliveryOk(s, j);
    if s.deliveries[j].pc.Offering? {
      assert RequestOk(s, s.deliveries[j].pc.channel);
    } else if s.deliveries[j].id in s.pending {
      assert PendingOk(s, s.deliveries[j].id);
    }
  }

  /** A channel accepts at most one value until its request has taken one, and at most two ever; it has
      accepted a second one only if the request took the first. */
  lemma {:induction false} AtMostOneUntilTaken(events: seq<Event>, i: nat)
    requires i < |After(events).requests|
    ensures var q := After(events).requests[i];
      && |q.accepted| == (if Answered(q) then 1 else 0) + (if q.buffer.Some? then 1 else 0)
      && (!Answered(q) ==> |q.accepted| <= 1)
      && |q.accepted| <= 2
  {
    InvHolds(events);
    assert RequestOk(After(events), i);
  }

  // ----- what the agent is asked

  predicate HasAsked(q: Request) {
    q.id != 0 && (q.pc.Waiting? || q.pc.Deleting? || q.pc.Returned?)
  }

  ghost predicate AskedOk(s: State) {
    && (forall id :: id in s.asked ==> id in s.asker)
    && (forall i :: 0 <= i < |s.requests| && s.requests[i].id != 0 ==> AskedFor(s, i))
  }

  predicate AskedFor(s: State, i: nat)
    requires i < |s.requests|
  {
    multiset(s.asked)[s.requests[i].id] == if HasAsked(s.requests[i]) then 1 else 0
  }

  lemma CountAppend(ids: seq<ReqId>, more: ReqId, id: ReqId)
    ensures multiset(ids + [more])[id] == multiset(ids)[id] + if more == id then 1 else 0
  {
  }

  lemma AskKeepsOthersAsked(s: State, i: nat, online: bool, timeout: bool, k: nat)
    requires Inv(s) && AskedOk(s) && i < |s.requests| && k < |s.requests| && k != i && s.requests[k].id != 0
    ensures AskedFor(OnAsk(s, i, online, timeout), k)
  {
    assert RequestOk(s, i) && RequestOk(s, k) && AskedFor(s, k);
    CountAppend(s.asked, s.requests[i].id, s.requests[k].id);
  }

  lemma AskKeepsOwnAsked(s: State, i: nat, online: bool, timeout: bool)
    requires Inv(s) && AskedOk(s) && i < |s.requests| && OnAsk(s, i, online, timeout).requests[i].id != 0
    ensures AskedFor(OnAsk(s, i, online, timeout), i)
  {
    var q := s.requests[i];
    assert RequestOk(s, i) && (q.id != 0 ==> AskedFor(s, i));
    CountAppend(s.asked, q.id, q.id);
    assert s.lastId + 1 !in s.asked;
  }

  lemma AskKeepsAsked(s: State, i: nat, online: bool, timeout: bool)
    requires Inv(s) && AskedOk(s) && i < |s.requests|
    ensures AskedOk(OnAsk(s, i, online, timeout))
  {
    var t := OnAsk(s, i, online, timeout);
    forall k | 0 <= k < |t.requests| && t.requests[k].id != 0 ensures AskedFor(t, k) {
      if k == i {
        AskKeepsOwnAsked(s, i, online, timeout);
      } else {
        AskKeepsOthersAsked(s, i, online, timeout, k);
      }
    }
    assert RequestOk(s, i);
  }

  /** A request that has gone out was asked for exactly once, under its own id, and nothing else was. */
  lemma {:induction false} AskedUnderOwnId(events: seq<Event>)
    ensures AskedOk(After(events))
  {
    if events != [] {
      var s, e := After(events[..|events| - 1]), events[|events| - 1];
      AskedUnderOwnId(events[..|events| - 1]);
      InvHolds(events[..|events| - 1]);
      if e.AskStep? && e.i < |s.requests| {
        AskKeepsAsked(s, e.i, e.online, e.timeout);
      } else {
        OthersKeepAsked(s, e);
      }
    }
  }

  lemma OthersKeepAsked(s: State, e: Event)
    requires AskedOk(s) && (e.AskStep? ==> e.i >= |s.requests|)
    ensures AskedOk(Next(s, e))
  {
    var t := Next(s, e);
    forall k | 0 <= k < |t.requests| && t.requests[k].id != 0 ensures AskedFor(t, k) {
      assert k < |s.requests| && AskedFor(s, k);
    }
  }

  // ----- a request that is answered

  /** The last request stands at pc, with an id that no other has, and has been offered nothing. */
  predicate Fresh(s: State, pc: AskPc) {
    && s.requests != []
    && var q := s.requests[|s.requests| - 1]; q.pc == pc && q.buffer.None? && q.accepted == []
  }

  /** From any state, a new request that finds its agent and is answered before its timer fires returns that
      answer. */
  lemma AnsweredRequestReturns(events: seq<Event>, names: Names) returns (more: seq<Event>)
    ensures events <= more
    ensures var n, s := |After(events).requests|, After(more);
      |s.requests| == n + 1 && s.requests[n].pc == Returned(Some(names))
  {
    var n := |After(events).requests|;
    more := GoneOut(events);
    more := Offered(more, n, names);
    more := Then(more, AskStep(n, true, false));
    more := Then(more, AskStep(n, true, false));
  }

  lemma GoneOut(events: seq<Event>) returns (more: seq<Event>)
    ensures events <= more
    ensures var n, s := |After(events).requests|, After(more);
      && |s.requests| == n + 1 && Fresh(s, Waiting) && s.requests[n].id in s.pending
      && s.pending[s.requests[n].id] == n
  {
    var n := |After(events).requests|;
    more := Then(events, Ask);
    assert Fresh(After(more), Starting);
    more := Then(more, AskStep(n, true, false));
    assert Fresh(After(more), Inserting);
    more := Then(more, AskStep(n, true, false));
    more := Then(more, AskStep(n, true, false));
  }

  lemma Offered(events: seq<Event>, n: nat, names: Names) returns (more: seq<Event>)
    requires var s := After(events);
      && |s.requests| == n + 1 && Fresh(s, Waiting) && s.requests[n].id in s.pending
      && s.pending[s.requests[n].id] == n
    ensures events <= more && |After(more).requests| == n + 1
    ensures After(more).requests[n].pc == Waiting && After(more).requests[n].buffer == Some(names)
  {
    var j := |After(events).deliveries|;
    var id := After(events).requests[n].id;
    more := Then(events, Deliver(id, names));
    more := Then(more, DeliverStep(j));
    assert After(more).deliveries[j] == Delivery(id, names, Offering(n));
    more := Then(more, DeliverStep(j));
  }

  /** A request that does not find its agent returns an error, and nothing is asked. */
  lemma OfflineRequestFails(events: seq<Event>) returns (more: seq<Event>)
    ensures events <= more
    ensures var n, s := |After(events).requests|, After(more);
      && |s.requests| == n + 1 && s.requests[n].pc == Returned(None) && s.requests[n].id == 0
      && s.asked == After(events).asked && s.pending == After(events).pending
  {
    var n := |After(events).requests|;
    more := Then(events, Ask);
    more := Then(more, AskStep(n, false, false));
  }

  /** A request whose timer fires first returns an error and is no longer pending. */
  lemma TimedOutRequestFails(events: seq<Event>) returns (more: seq<Event>)
    ensures events <= more
    ensures var n, s := |After(events).requests|, After(more);
      && |s.requests| == n + 1 && s.requests[n].pc == Returned(None) && s.requests[n].id !in s.pending
  {
    var n := |After(events).requests|;
    more := GoneOut(events);
    more := Then(more, AskStep(n, true, true));
    more := Then(more, AskStep(n, true, false));
  }

  // ----- when a channel accepts a second value

  /** Event n is a delivery's offer on the channel of request i. */
  predicate OffersAt(events: seq<Event>, n: nat, i: nat)
    requires n < |events|
  {
    var s, e := After(events[..n]), events[n];
    && e.DeliverStep? && e.j < |s.deliveries| && i < |s.requests|
    && s.deliveries[e.j].pc == Offering(i)
  }

  /** Event n is an offer to request i after it has taken its value. */
  predicate OffersLate(events: seq<Event>, n: nat, i: nat)
    requires n < |events|
  {
    OffersAt(events, n, i) && Answered(After(events[..n]).requests[i])
  }

  predicate OfferedLate(events: seq<Event>, i: nat) {
    exists n :: 0 <= n < |events| && OffersLate(events, n, i)
  }

  lemma OfferedLateStep(events: seq<Event>, e: Event, i: nat)
    ensures OfferedLate(events + [e], i) <==> OfferedLate(events, i) || OffersLate(events + [e], |events|, i)
  {
    var more := events + [e];
    forall n | 0 <= n < |events| ensures OffersLate(more, n, i) <==> OffersLate(events, n, i) {
      assert more[..n] == events[..n];
    }
    if OfferedLate(more, i) {
      var n :| 0 <= n < |more| && OffersLate(more, n, i);
      assert n < |events| ==> OffersLate(events, n, i);
    }
    if OfferedLate(events, i) {
      var n :| 0 <= n < |events| && OffersLate(events, n, i);
      assert OffersLate(more, n, i);
    }
  }

  /** One event makes the second value accepted exactly when it is a late offer; and it leaves a request
      that has taken its value so. */
  lemma SecondStep(s: State, e: Event, i: nat)
    requires Inv(s) && i < |s.requests|
    ensures var q, q' := s.requests[i], Next(s, e).requests[i];
      var late := e.DeliverStep? && e.j < |s.deliveries| && s.deliveries[e.j].pc == Offering(i) && Answered(q);
      && (|q'.accepted| >= 2 <==> |q.accepted| >= 2 || late)
      && (q.pc.Returned? ==> q'.pc == q.pc)
      && (Answered(q) ==> Answered(q'))
  {
    assert RequestOk(s, i) && ChannelOk(s, s.requests[i]);
  }

  /** A channel accepts a second value exactly when some delivery makes its offer after the request has
      taken its value. */
  lemma {:induction false} SecondValueExactly(events: seq<Event>, i: nat)
    requires i < |After(events).requests|
    ensures |After(events).requests[i].accepted| == 2 <==> OfferedLate(events, i)
  {
    if events != [] {
      var n := |events| - 1;
      var front, e := events[..n], events[n];
      assert events == front + [e] && events[..n] == front;
      OfferedLateStep(front, e, i);
      InvHolds(front);
      if i < |After(front).requests| {
        SecondValueExactly(front, i);
        SecondValueStep(front, e, i);
      } else {
        NotYetOffered(front, i);
        FreshRequest(After(front), e, i);
      }
    }
  }

  lemma SecondValueStep(front: seq<Event>, e: Event, i: nat)
    requires i < |After(front).requests|
    ensures i < |After(front + [e]).requests|
    ensures |After(front + [e]).requests[i].accepted| == 2 <==>
      |After(front).requests[i].accepted| == 2 || OffersLate(front + [e], |front|, i)
  {
    var events := front + [e];
    assert events[..|front|] == front;
    InvHolds(front);
    SecondStep(After(front), e, i);
    AtMostOneUntilTaken(front, i);
    AtMostOneUntilTaken(events, i);
  }

  lemma FreshRequest(s: State, e: Event, i: nat)
    requires |s.requests| <= i < |Next(s, e).requests|
    ensures e.Ask? && Next(s, e).requests[i].accepted == []
  {
  }

  lemma RequestsStay(s: State, e: Event)
    ensures |s.requests| <= |Next(s, e).requests|
    ensures forall i :: 0 <= i < |s.requests| && s.requests[i].pc.Returned? ==> Next(s, e).requests[i].pc.Returned?
  {
  }

  /** Nothing is offered to a request that has not begun. */
  lemma {:induction false} NotYetOffered(events: seq<Event>, i: nat)
    requires i >= |After(events).requests|
    ensures !OfferedLate(events, i)
  {
    if events != [] {
      var n := |events| - 1;
      var front, e := events[..n], events[n];
      assert events == front + [e] && events[..n] == front;
      RequestsStay(After(front), e);
      NotYetOffered(front, i);
      OfferedLateStep(front, e, i);
    }
  }

  /** The same before the request returns: its channel has then accepted more than one value exactly when
      some delivery made its offer while the request, its value taken, was about to leave the table. */
  lemma SecondValueBeforeReturnExactly(events: seq<Event>, i: nat)
    requires i < |After(events).requests| && !After(events).requests[i].pc.Returned?
    ensures |After(events).requests[i].accepted| > 1 <==>
      exists n :: 0 <= n < |events| && OffersLate(events, n, i) && After(events[..n]).requests[i].pc.Deleting?
  {
    SecondValueExactly(events, i);
    AtMostOneUntilTaken(events, i);
    forall n | 0 <= n < |events| && OffersLate(events, n, i) ensures After(events[..n]).requests[i].pc.Deleting? {
      assert events[..n] + events[n..] == events;
      if After(events[..n]).requests[i].pc.Returned? {
        ReturnIsFinal(events[..n], events[n..], i);
      }
    }
  }

  lemma {:induction false} ReturnIsFinal(events: seq<Event>, more: seq<Event>, i: nat)
    requires i < |After(events).requests| && After(events).requests[i].pc.Returned?
    ensures i < |After(events + more).requests| && After(events + more).requests[i].pc.Returned?
    decreases |more|
  {
    if more == [] {
      assert events + more == events;
    } else {
      var n := |more| - 1;
      var before := events + more[..n];
      ReturnIsFinal(events, more[..n], i);
      RequestsStay(After(before), more[n]);
      assert events + more == before + [more[n]] && (before + [more[n]])[..|before|] == before;
    }
  }

  /** Two accepted values come from two deliveries under the id of the request. */
  lemma TwoAnswers(events: seq<Event>, i: nat)
    requires i < |After(events).requests| && |After(events).requests[i].accepted| == 2
    ensures var s := After(events);
      exists j, k :: 0 <= j < |s.deliveries| && 0 <= k < |s.deliveries| && j != k
        && s.deliveries[j].id == s.requests[i].id == s.deliveries[k].id
  {
    var s := After(events);
    InvHolds(events);
    var q := s.requests[i];
    assert RequestOk(s, i) && ChannelOk(s, q);
    assert AcceptedOk(s, q, q.accepted[0]) && AcceptedOk(s, q, q.accepted[1]);
  }

  predicate AnsweredOnce(s: State, id: ReqId) {
    forall j, k :: 0 <= j < |s.deliveries| && 0 <= k < |s.deliveries| && j != k ==>
      !(s.deliveries[j].id == id == s.deliveries[k].id)
  }

  /** What keeps the bound of one: an agent that answers each request id at most once. */
  lemma AnsweredOnceKeepsOne(events: seq<Event>, i: nat)
    requires i < |After(events).requests| && AnsweredOnce(After(events), After(events).requests[i].id)
    ensures |After(events).requests[i].accepted| <= 1
  {
    AtMostOneUntilTaken(events, i);
    if |After(events).requests[i].accepted| == 2 {
      TwoAnswers(events, i);
    }
  }

  lemma Then(events: seq<Event>, e: Event) returns (more: seq<Event>)
    ensures After(more) == Next(After(events), e) && events <= more
  {
    more := events + [e];
    assert more[..|events|] == events;
  }

  lemma OneWaiting() returns (events: seq<Event>)
    ensures var s := After(events);
      s.requests == [Request(Waiting, 1, None, [])] && s.pending == map[1 := 0] && s.deliveries == []
  {
    events := Then([], Ask);
    events := Then(events, AskStep(0, true, false));
    events := Then(events, AskStep(0, true, false));
    events := Then(events, AskStep(0, true, false));
  }

  lemma OneAccepted(first: Names) returns (events: seq<Event>)
    ensures var s := After(events);
      && |s.requests| == 1 && |s.requests[0].accepted| == 1 && s.requests[0].buffer == Some(first)
      && s.requests[0].pc == Waiting && s.requests[0].id == 1 && s.pending == map[1 := 0] && |s.deliveries| == 1
  {
    events := OneWaiting();
    events := Then(events, Deliver(1, first));
    assert After(events).deliveries == [Delivery(1, first, LookingUp)];
    events := Then(events, DeliverStep(0));
    assert After(events).deliveries == [Delivery(1, first, Offering(0))];
    events := Then(events, DeliverStep(0));
  }

  /** The bound of one does not extend to the return of the request: after it has taken its value, and
      before it has removed itself, the empty channel accepts another delivery. */
  lemma SecondValueBeforeReturn(first: Names, second: Names) returns (events: seq<Event>)
    ensures var s := After(events);
      |s.requests| == 1 && s.requests[0].pc == Deleting(Some(first)) && |s.requests[0].accepted| == 2
  {
    events := OneAccepted(first);
    events := Then(events, AskStep(0, true, false));
    events := Then(events, Deliver(1, second));
    events := Then(events, DeliverStep(1));
    events := Then(events, DeliverStep(1));
  }
}
