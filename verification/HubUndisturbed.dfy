/** Whole messages, arrivals and departures of one handler that nobody interferes with: what they come to
    (internal/hub/hub.go:334-374, 420-424, 456-483, 351-356). */
module HubUndisturbed {
  import opened Wrappers
  import opened MuxFrame
  import opened Registry
  import opened ClientLoop
  import opened HubSteps
  import opened HubSerial

  // ----- answering

  /** An answer is told to the handler's own client, which then is heard again or is removed. */
  lemma AnswerIsTold(s: HubState, x: nat, answer: Answer, leave: bool)
    requires x < |s.handlers| && s.handlers[x].pc == Answering(answer, leave)
    ensures var t := Fire(s, Turn(x, Go));
      && t.agents == s.agents && t.wire == s.wire && x < |t.handlers|
      && t.sent == s.sent + [Delivery(s.handlers[x].id, Answered(answer))]
      && t.handlers[x].id == s.handlers[x].id && t.handlers[x].pc == if leave then Removing else Reading
  {
  }

  /** A refused `request_write` is answered with its reason and changes nothing. */
  lemma RefusalIsTold(s: HubState, x: nat) returns (n: nat)
    requires x < |s.handlers| && s.handlers[x].pc.Reading?
    requires var h := s.handlers[x];
      WhyNotWriter(s.agents, h.b.claims.agent, h.id, h.b.claims.write).Some?
    ensures var h := s.handlers[x];
      var t := Fire(Turns(Fire(s, Turn(x, Hear(RequestWrite))), x, n), Turn(x, Go));
      var code := WhyNotWriter(s.agents, h.b.claims.agent, h.id, h.b.claims.write).value;
      && t.agents == s.agents && x < |t.handlers| && t.handlers[x].pc == Reading
      && t.sent == s.sent + [Delivery(h.id, Answered(WriteDenied(code)))]
  {
    n := RequestIsOneDecision(s, x);
    var t := Turns(Fire(s, Turn(x, Hear(RequestWrite))), x, n);
    AnswerIsTold(t, x, t.handlers[x].pc.answer, false);
  }

  /** A message that ends the loop is answered with an error, and then the handler leaves; nothing is
      written to the agent. */
  lemma RefusedMessageEnds(s: HubState, x: nat, m: ClientMsg)
    requires x < |s.handlers| && s.handlers[x].pc.Reading? && EndsLoop(s.handlers[x].b, m)
    ensures var t := Fire(Fire(s, Turn(x, Hear(m))), Turn(x, Go));
      && t.agents == s.agents && t.wire == s.wire && x < |t.handlers| && t.handlers[x].pc == Removing
      && |t.sent| == |s.sent| + 1 && t.sent[|s.sent|].to == s.handlers[x].id
      && t.sent[|s.sent|].msg.Answered? && t.sent[|s.sent|].msg.answer.Failed?
  {
    var s1 := Fire(s, Turn(x, Hear(m)));
    AnswerIsTold(s1, x, s1.handlers[x].pc.answer, true);
  }

  // ----- releasing

  /** A `release_write` of the writer clears the role and is announced; of anybody else it does nothing. */
  lemma ReleaseIsOneDecision(s: HubState, x: nat) returns (n: nat)
    requires x < |s.handlers| && s.handlers[x].pc.Reading?
    ensures var h, t := s.handlers[x], Turns(Fire(s, Turn(x, Hear(ReleaseWrite))), x, n);
      var a := h.b.claims.agent;
      && x < |t.handlers| && t.wire == s.wire && t.sent == s.sent
      && (if IsWriter(s.agents, a, h.id)
          then t.agents == Apply(s.agents, ClearWriter(a)) && t.handlers[x].pc == Broadcasting(Snapping, false)
          else t.agents == s.agents && t.handlers[x].pc == Reading)
  {
    var s0 := Fire(s, Turn(x, Hear(ReleaseWrite)));
    assert s0.handlers[x].pc == Releasing(Asking) && s0.agents == s.agents;
    var s1 := Fire(s0, Turn(x, Go));
    assert Turns(s1, x, 0) == s1;
    n := if IsWriter(s.agents, s.handlers[x].b.claims.agent, s.handlers[x].id) then 2 else 1;
    assert n == 2 ==> Turns(Fire(s1, Turn(x, Go)), x, 0) == Fire(s1, Turn(x, Go));
  }

  // ----- typing

  /** The input frame that a binary message comes to: what its gates, its focus and its active session let
      pass now. */
  function TypedFrame(s: HubState, x: nat, data: Bytes): Option<Bytes>
    requires x < |s.handlers|
  {
    var h := s.handlers[x];
    var a := h.b.claims.agent;
    if h.b.claims.write && h.view.focus && WebWritable(s.agents, a) && IsWriter(s.agents, a, h.id)
    then FrameFor(h.b, h.view, data) else None
  }

  lemma TypingPassesLock(s: HubState, x: nat, data: Bytes)
    requires x < |s.handlers| && s.handlers[x].pc == Typing(InLock(data))
    ensures var h, t := s.handlers[x], Fire(s, Turn(x, Go));
      && t.agents == s.agents && t.wire == s.wire && t.sent == s.sent && x < |t.handlers|
      && t.handlers[x].b == h.b && t.handlers[x].id == h.id && t.handlers[x].agentConn == h.agentConn
      && t.handlers[x].view == h.view
      && t.handlers[x].pc == if WebWritable(s.agents, h.b.claims.agent) then Typing(InWriter(data)) else Reading
  {
  }

  lemma TypingPassesWriter(s: HubState, x: nat, data: Bytes)
    requires x < |s.handlers| && s.handlers[x].pc == Typing(InWriter(data))
    ensures var h, t := s.handlers[x], Fire(s, Turn(x, Go));
      && t.agents == s.agents && t.wire == s.wire && t.sent == s.sent && x < |t.handlers|
      && t.handlers[x].agentConn == h.agentConn
      && t.handlers[x].pc ==
           if !IsWriter(s.agents, h.b.claims.agent, h.id) then Reading
           else match FrameFor(h.b, h.view, data) case Some(f) => Typing(Forwarding(f)) case None => Reading
  {
  }

  lemma TypingForwards(s: HubState, x: nat, frame: Bytes)
    requires x < |s.handlers| && s.handlers[x].pc == Typing(Forwarding(frame))
    ensures var t := Fire(s, Turn(x, Go));
      && t.agents == s.agents && t.sent == s.sent && x < |t.handlers| && t.handlers[x].pc == Reading
      && t.wire == s.wire + [AgentWrite(s.handlers[x].agentConn, x, AgentMsg.Input(frame))]
  {
  }

  /** A binary message is forwarded to the agent at once, if it passes its gates as they are now, and is
      dropped otherwise; nothing else happens. */
  lemma TypingIsOneDecision(s: HubState, x: nat, data: Bytes) returns (n: nat)
    requires x < |s.handlers| && s.handlers[x].pc.Reading?
    ensures var h, t := s.handlers[x], Turns(Fire(s, Turn(x, Hear(Binary(data)))), x, n);
      && x < |t.handlers| && t.handlers[x].pc == Reading && t.agents == s.agents && t.sent == s.sent
      && t.wire == match TypedFrame(s, x, data)
         case Some(f) => s.wire + [AgentWrite(h.agentConn, x, AgentMsg.Input(f))]
         case None => s.wire
  {
    var h := s.handlers[x];
    var s0 := Fire(s, Turn(x, Hear(Binary(data))));
    assert Turns(s0, x, 0) == s0;
    if !h.b.claims.write || !h.view.focus {
      n := 0;
    } else {
      assert s0.handlers[x].pc == Typing(InLock(data));
      n := FromLock(s0, x, data);
    }
  }

  lemma FromLock(s: HubState, x: nat, data: Bytes) returns (n: nat)
    requires x < |s.handlers| && s.handlers[x].pc == Typing(InLock(data))
    requires s.handlers[x].b.claims.write && s.handlers[x].view.focus
    ensures var t := Turns(s, x, n);
      && x < |t.handlers| && t.handlers[x].pc == Reading && t.agents == s.agents && t.sent == s.sent
      && t.wire == match TypedFrame(s, x, data)
         case Some(f) => s.wire + [AgentWrite(s.handlers[x].agentConn, x, AgentMsg.Input(f))]
         case None => s.wire
  {
    var s1 := Fire(s, Turn(x, Go));
    TypingPassesLock(s, x, data);
    if s1.handlers[x].pc == Reading {
      n := 1;
      assert Turns(s1, x, 0) == s1;
    } else {
      var m := FromWriter(s1, x, data);
      n := m + 1;
    }
  }

  lemma FromWriter(s: HubState, x: nat, data: Bytes) returns (n: nat)
    requires x < |s.handlers| && s.handlers[x].pc == Typing(InWriter(data))
    ensures var h, t := s.handlers[x], Turns(s, x, n);
      && x < |t.handlers| && t.handlers[x].pc == Reading && t.agents == s.agents && t.sent == s.sent
      && t.wire == if IsWriter(s.agents, h.b.claims.agent, h.id) && FrameFor(h.b, h.view, data).Some?
         then s.wire + [AgentWrite(h.agentConn, x, AgentMsg.Input(FrameFor(h.b, h.view, data).value))]
         else s.wire
  {
    var s1 := Fire(s, Turn(x, Go));
    TypingPassesWriter(s, x, data);
    assert Turns(s1, x, 0) == s1;
    if s1.handlers[x].pc == Reading {
      n := 1;
    } else {
      TypingForwards(s1, x, s1.handlers[x].pc.typing.frame);
      assert Turns(Fire(s1, Turn(x, Go)), x, 0) == Fire(s1, Turn(x, Go));
      n := 2;
    }
  }

  // ----- departing

  /** When its connection fails, a handler removes its client, and announces that if it was the writer. */
  lemma DepartureIsOneDecision(s: HubState, x: nat)
    requires x < |s.handlers| && s.handlers[x].pc.Reading?
    ensures var h, t := s.handlers[x], Turns(Fire(s, Turn(x, ReadError)), x, 1);
      var a := h.b.claims.agent;
      && t.agents == Apply(s.agents, RemoveClient(a, h.id)) && t.wire == s.wire && t.sent == s.sent
      && x < |t.handlers|
      && t.handlers[x].pc == if Writer(s.agents, a) == h.id then Broadcasting(Snapping, true) else Done
  {
    var s0 := Fire(s, Turn(x, ReadError));
    assert Turns(Fire(s0, Turn(x, Go)), x, 0) == Fire(s0, Turn(x, Go));
  }

  // ----- arriving

  /** The client that an accepted handshake makes, with the next id. */
  function NewClient(s: HubState, b: Binding): Client {
    Client(s.lastId + 1, b.proto, b.claims.session)
  }

  /** A handler that finds its agent takes the next id and adds its client, with the protocol and session of
      its binding. */
  lemma ArrivalAdds(s: HubState, x: nat) returns (n: nat)
    requires x < |s.handlers| && s.handlers[x].pc == Arriving(Lookup) && s.handlers[x].b.claims.agent in s.agents
    ensures var h, t := s.handlers[x], Turns(s, x, n);
      var a := h.b.claims.agent;
      && t.agents == Apply(s.agents, AddClient(a, NewClient(s, h.b))) && t.wire == s.wire && t.sent == s.sent
      && x < |t.handlers| && t.handlers[x].b == h.b && t.handlers[x].id == s.lastId + 1
      && t.handlers[x].agentConn == s.agents[a].conn && t.handlers[x].pc == Greeting(SettingSession)
  {
    var s1 := Fire(s, Turn(x, Go));
    assert s1.agents == s.agents && s1.lastId == s.lastId && s1.handlers[x].pc == Arriving(TakeId);
    var s2 := Fire(s1, Turn(x, Go));
    assert s2.agents == s.agents && s2.handlers[x].pc == Arriving(Adding) && s2.handlers[x].id == s.lastId + 1;
    n := ThreeTurns(s, x);
  }

  lemma ThreeTurns(s: HubState, x: nat) returns (n: nat)
    ensures Turns(s, x, n) == Fire(Fire(Fire(s, Turn(x, Go)), Turn(x, Go)), Turn(x, Go))
  {
    var s1 := Fire(s, Turn(x, Go));
    var s2 := Fire(s1, Turn(x, Go));
    var s3 := Fire(s2, Turn(x, Go));
    n := 3;
    assert Turns(s3, x, 0) == s3 && Turns(s2, x, 1) == s3 && Turns(s1, x, 2) == s3;
  }

  /** It then records its session, sends the agent the attach of its handshake, on the connection it found,
      and tells its client that it is attached and what it may do. */
  lemma GreetingTells(s: HubState, x: nat) returns (n: nat)
    requires x < |s.handlers| && s.handlers[x].pc == Greeting(SettingSession)
    ensures var h, t := s.handlers[x], Turns(s, x, n);
      && t.agents == Apply(s.agents, SetSession(h.b.claims.agent, h.b.claims.session))
      && t.wire == s.wire + [AgentWrite(h.agentConn, x, Ctl(AttachSession(h.b.first, h.b.proto)))]
      && t.sent == s.sent + [Delivery(h.id, ClientOut.Attached(h.b.claims.write))]
      && x < |t.handlers| && t.handlers[x].b == h.b && t.handlers[x].id == h.id
      && t.handlers[x].pc == Greeting(AskingStatus)
  {
    var s1 := Fire(s, Turn(x, Go));
    assert s1.wire == s.wire && s1.sent == s.sent && s1.handlers[x].pc == Greeting(TellingAgent);
    var s2 := Fire(s1, Turn(x, Go));
    assert s2.agents == s1.agents && s2.sent == s.sent && s2.handlers[x].pc == Greeting(TellingClient);
    n := ThreeTurns(s, x);
  }

  lemma StatusTold(s: HubState, x: nat) returns (n: nat)
    requires x < |s.handlers| && s.handlers[x].pc == Greeting(AskingStatus)
    ensures var h, t := s.handlers[x], Turns(s, x, n);
      && t.agents == s.agents && t.wire == s.wire
      && t.sent == s.sent + [Delivery(h.id, WriteStatus(IsWriter(s.agents, h.b.claims.agent, h.id)))]
      && x < |t.handlers| && t.handlers[x].b == h.b && t.handlers[x].id == h.id && t.handlers[x].pc == Reading
  {
    var s1 := Fire(s, Turn(x, Go));
    assert s1.agents == s.agents && s1.wire == s.wire && s1.sent == s.sent;
    var s2 := Fire(s1, Turn(x, Go));
    n := 2;
    assert Turns(s2, x, 0) == s2 && Turns(s1, x, 1) == s2;
  }

  /** What an undisturbed arrival of handler x comes to, from one state to another. */
  predicate Attached(s: HubState, x: nat, b: Binding, t: HubState)
    requires b.claims.agent in s.agents
  {
    var a, c := b.claims.agent, NewClient(s, b);
    && t.agents == Apply(Apply(s.agents, AddClient(a, c)), SetSession(a, b.claims.session))
    && t.wire == s.wire + [AgentWrite(s.agents[a].conn, x, Ctl(AttachSession(b.first, b.proto)))]
    && t.sent == (s.sent + [Delivery(c.id, ClientOut.Attached(b.claims.write))])
                 + [Delivery(c.id, WriteStatus(IsWriter(s.agents, a, c.id)))]
    && x < |t.handlers| && t.handlers[x].b == b && t.handlers[x].id == c.id && t.handlers[x].pc == Reading
  }

  lemma ArrivalAttaches(s: HubState, x: nat) returns (i: nat, j: nat, k: nat)
    requires x < |s.handlers| && s.handlers[x].pc == Arriving(Lookup) && s.handlers[x].b.claims.agent in s.agents
    ensures Attached(s, x, s.handlers[x].b, Turns(Turns(Turns(s, x, i), x, j), x, k))
  {
    i := ArrivalAdds(s, x);
    j, k := GreetingAttaches(s, x, Turns(s, x, i));
  }

  lemma GreetingAttaches(s: HubState, x: nat, u: HubState) returns (j: nat, k: nat)
    requires x < |s.handlers| && x < |u.handlers| && s.handlers[x].b.claims.agent in s.agents
    requires u.handlers[x].pc == Greeting(SettingSession) && u.handlers[x].b == s.handlers[x].b
    requires var b := s.handlers[x].b; var a := b.claims.agent;
      && u.agents == Apply(s.agents, AddClient(a, NewClient(s, b))) && u.wire == s.wire && u.sent == s.sent
      && u.handlers[x].id == s.lastId + 1 && u.handlers[x].agentConn == s.agents[a].conn
    ensures Attached(s, x, s.handlers[x].b, Turns(Turns(u, x, j), x, k))
  {
    j := GreetingTells(u, x);
    k := StatusTold(Turns(u, x, j), x);
  }

  lemma AttachedFrom(s: HubState, s0: HubState, x: nat, b: Binding, t: HubState)
    requires s0.agents == s.agents && s0.lastId == s.lastId && s0.wire == s.wire && s0.sent == s.sent
    requires b.claims.agent in s.agents && Attached(s0, x, b, t)
    ensures Attached(s, x, b, t)
  {
  }

  /** An undisturbed arrival: the client is registered with what its handshake bound it to, the session of
      its claims is recorded, the agent is sent the attach on the connection it is registered with, and
      the client is told that it is attached, and its role. */
  lemma ArrivalIsOneAttach(s: HubState, hello: Hello, token: Claims) returns (i: nat, j: nat, k: nat)
    requires Handshake(hello, token).Ok?
    requires Handshake(hello, token).value.claims.agent in s.agents
    ensures var x := |s.handlers|;
      var s0 := Fire(s, ClientConnects(hello, token));
      Attached(s, x, Handshake(hello, token).value, Turns(Turns(Turns(s0, x, i), x, j), x, k))
  {
    var x, s0 := |s.handlers|, Fire(s, ClientConnects(hello, token));
    i, j, k := ArrivalAttaches(s0, x);
    AttachedFrom(s, s0, x, Handshake(hello, token).value, Turns(Turns(Turns(s0, x, i), x, j), x, k));
  }

  /** Without its agent nothing is registered, written or told. */
  lemma ArrivalWithoutAgent(s: HubState, hello: Hello, token: Claims)
    requires Handshake(hello, token).Ok?
    requires Handshake(hello, token).value.claims.agent !in s.agents
    ensures var t := Fire(Fire(s, ClientConnects(hello, token)), Turn(|s.handlers|, Go));
      && t.agents == s.agents && t.wire == s.wire && t.sent == s.sent
      && |t.handlers| == |s.handlers| + 1 && t.handlers[|s.handlers|].pc == Done
  {
  }
}
