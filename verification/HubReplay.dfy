/** The hub object driven by whole histories: any sequence of critical sections and of output frames of
    agents leaves the object with the registry of the history, and each registered client with what it
    should have received since it was added (internal/hub/hub.go). */
module HubReplay {
  import opened MuxFrame
  import opened Registry
  import opened FanOut
  import opened HubObjects

  datatype Event = Section(op: Op) | OutputFrame(a: AgentId, data: Bytes)

  // ----- what a history leaves

  function OpsOf(events: seq<Event>): seq<Op> {
    if events == [] then []
    else
      var e := events[|events| - 1];
      OpsOf(events[..|events| - 1]) + (if e.Section? then [e.op] else [])
  }

  /** The registry after the critical sections among the events. */
  function RegistryAfter(events: seq<Event>): Agents {
    Run(map[], OpsOf(events))
  }

  /** The output frames of agent a since client id was last added to it. */
  function FramesSince(events: seq<Event>, a: AgentId, id: ClientId): seq<Bytes> {
    if events == [] then []
    else
      var front, e := events[..|events| - 1], events[|events| - 1];
      if e.OutputFrame? && e.a == a then FramesSince(front, a, id) + [e.data]
      else if e.Section? && e.op.AddClient? && e.op.a == a && e.op.client.id == id then []
      else FramesSince(front, a, id)
  }

  predicate NamesClients(ops: seq<Op>) {
    forall op :: op in ops && op.AddClient? ==> op.client.id != NO_CLIENT
  }

  // ----- what clients were sent

  /** A place in the registry, and what the client there was sent. */
  type Place = (AgentId, ClientId)
  datatype Line = Line(proto: nat, session: Bytes, sent: seq<Message>)

  predicate LineRight(line: Line, events: seq<Event>, p: Place) {
    line.sent == Outputs(Received(line.proto, line.session, FramesSince(events, p.0, p.1)))
  }

  predicate LinesRight(lines: map<Place, Line>, events: seq<Event>) {
    forall p :: p in lines ==> LineRight(lines[p], events, p)
  }

  predicate Adds(op: Op, p: Place) {
    op.AddClient? && op.a == p.0 && op.client.id == p.1
  }

  /** A critical section leaves every place it keeps as it was, and opens a new one with nothing sent. */
  predicate SectionOnLines(lines: map<Place, Line>, op: Op, after: map<Place, Line>) {
    forall p :: p in after ==>
      if Adds(op, p) then after[p].sent == [] else p in lines && after[p] == lines[p]
  }

  function WithFrame(line: Line, data: Bytes): Line {
    line.(sent := line.sent + Outputs(Relayed(line.proto, line.session, data)))
  }

  /** An output frame of agent a is relayed to the clients of a. */
  predicate FrameOnLines(lines: map<Place, Line>, a: AgentId, data: Bytes, after: map<Place, Line>) {
    forall p :: p in after ==>
      && p in lines
      && after[p] == if p.0 == a then WithFrame(lines[p], data) else lines[p]
  }

  lemma SectionKeepsRight(lines: map<Place, Line>, op: Op, after: map<Place, Line>, events: seq<Event>)
    requires LinesRight(lines, events) && SectionOnLines(lines, op, after)
    ensures LinesRight(after, events + [Section(op)])
  {
    assert (events + [Section(op)])[..|events|] == events;
    forall p | p in after ensures LineRight(after[p], events + [Section(op)], p) {
      assert !Adds(op, p) ==> LineRight(lines[p], events, p);
    }
  }

  lemma FrameKeepsRight(lines: map<Place, Line>, a: AgentId, data: Bytes, after: map<Place, Line>, events: seq<Event>)
    requires LinesRight(lines, events) && FrameOnLines(lines, a, data, after)
    ensures LinesRight(after, events + [OutputFrame(a, data)])
  {
    var now := events + [OutputFrame(a, data)];
    assert now[..|events|] == events;
    forall p | p in after ensures LineRight(after[p], now, p) {
      assert LineRight(lines[p], events, p);
      ReceivedAppend(lines[p].proto, lines[p].session, FramesSince(events, p.0, p.1), data);
    }
  }

  lemma ReceivedAppend(proto: nat, session: Bytes, frames: seq<Bytes>, data: Bytes)
    ensures Outputs(Received(proto, session, frames + [data])) ==
      Outputs(Received(proto, session, frames)) + Outputs(Relayed(proto, session, data))
  {
    assert (frames + [data])[..|frames|] == frames;
  }

  // ----- the object

  ghost function Slots(hub: Hub): map<Place, ClientState>
    reads hub, hub.agents.Values
  {
    map a, c | a in hub.agents && c in hub.agents[a].clients :: (a, c) := hub.agents[a].clients[c]
  }

  ghost function Lines(hub: Hub): map<Place, Line>
    reads hub, hub.agents.Values, Slots(hub).Values
  {
    var slots := Slots(hub);
    map p | p in slots :: Line(slots[p].proto, slots[p].session, slots[p].sent)
  }

  /** No client object has two places. */
  ghost predicate Separate(hub: Hub)
    reads hub, hub.agents.Values
  {
    var slots := Slots(hub);
    forall p, q :: p in slots && q in slots && slots[p] == slots[q] ==> p == q
  }

  /** A critical section of the hub that does not touch the clients of an agent. */
  method EnterField(hub: Hub, op: Op)
    requires hub.Valid() && (op.SetSession? || op.SetWriter? || op.ClearWriter? || op.SetWebWritable?)
    modifies hub.agents.Values`sess, hub.agents.Values`writer, hub.agents.Values`write
    ensures hub.Valid() && hub.View() == Apply(old(hub.View()), op)
  {
    match op {
      case SetSession(a, session) => hub.SetSession(a, session);
      case SetWriter(a, id) => hub.SetWriter(a, id);
      case ClearWriter(a) => hub.ClearWriter(a);
      case SetWebWritable(a, session, enabled) => var ok := hub.SetWebWritable(a, session, enabled);
    }
  }

  /** Any critical section. */
  method Enter(hub: Hub, op: Op)
    requires hub.Valid() && NamesClients([op])
    modifies hub`agents, hub.agents.Values
    ensures hub.Valid() && hub.View() == Apply(old(hub.View()), op)
    ensures forall b :: b in hub.agents ==> fresh(hub.agents[b]) || hub.agents[b] in old(hub.agents.Values)
    ensures forall p :: p in Slots(hub) ==>
      if Adds(op, p) then fresh(Slots(hub)[p]) && Slots(hub)[p].sent == []
      else p in old(Slots(hub)) && Slots(hub)[p] == old(Slots(hub))[p]
  {
    match op {
      case Register(a, conn) =>
        var state := hub.RegisterAgent(a, conn);
      case Unregister(a, conn) =>
        var closed := hub.UnregisterAgent(a, conn);
      case AddClient(a, client) =>
        assert op in [op];
        var state := new ClientState(client.id, client.proto, client.session);
        var added := hub.AddClient(a, state);
      case RemoveClient(a, id) =>
        var wasWriter := hub.RemoveClient(a, id);
      case _ =>
        EnterField(hub, op);
    }
  }

  /** One critical section, and what it means for the clients. */
  method EnterSection(hub: Hub, op: Op)
    requires hub.Valid() && Separate(hub) && NamesClients([op])
    modifies hub`agents, hub.agents.Values
    ensures hub.Valid() && Separate(hub) && hub.View() == Apply(old(hub.View()), op)
    ensures SectionOnLines(old(Lines(hub)), op, Lines(hub))
    ensures forall b :: b in hub.agents ==> fresh(hub.agents[b]) || hub.agents[b] in old(hub.agents.Values)
    ensures forall p :: p in Slots(hub) ==> fresh(Slots(hub)[p]) || Slots(hub)[p] in old(Slots(hub)).Values
  {
    Enter(hub, op);
  }

  /** One output frame, and what it means for the clients. */
  method Relay(hub: Hub, a: AgentId, data: Bytes)
    requires hub.Valid() && Separate(hub)
    modifies hub.Clients(a)
    ensures hub.Valid() && Separate(hub) && hub.View() == old(hub.View()) && Slots(hub) == old(Slots(hub))
    ensures FrameOnLines(old(Lines(hub)), a, data, Lines(hub))
  {
    ghost var slots, lines := Slots(hub), Lines(hub);
    ClientsAreSlots(hub, a);
    hub.RelayFrame(a, data);
    assert Slots(hub) == slots;
    forall p | p in slots ensures Lines(hub)[p] == if p.0 == a then WithFrame(lines[p], data) else lines[p] {
      assert slots[p] in hub.Clients(a) <==> p.0 == a;
    }
  }

  /** The clients of agent a are those in its places. */
  lemma ClientsAreSlots(hub: Hub, a: AgentId)
    ensures hub.Clients(a) <= Slots(hub).Values
    ensures Separate(hub) ==> forall p :: p in Slots(hub) ==> (Slots(hub)[p] in hub.Clients(a) <==> p.0 == a)
  {
    var slots := Slots(hub);
    forall client | client in hub.Clients(a)
      ensures exists c: ClientId :: (a, c) in slots && slots[(a, c)] == client
    {
      var c :| c in hub.agents[a].clients && hub.agents[a].clients[c] == client;
      assert (a, c) in slots;
    }
    forall p | p in slots && p.0 == a ensures slots[p] in hub.Clients(a) {
      assert p.1 in hub.agents[a].clients;
    }
  }

  method Step(hub: Hub, e: Event, ghost before: seq<Event>)
    requires hub.Valid() && Separate(hub) && (e.Section? ==> NamesClients([e.op]))
    requires hub.View() == RegistryAfter(before) && LinesRight(Lines(hub), before)
    modifies hub`agents, hub.agents.Values, Slots(hub).Values
    ensures hub.Valid() && Separate(hub)
    ensures hub.View() == RegistryAfter(before + [e]) && LinesRight(Lines(hub), before + [e])
    ensures forall b :: b in hub.agents ==> fresh(hub.agents[b]) || hub.agents[b] in old(hub.agents.Values)
    ensures forall p :: p in Slots(hub) ==> fresh(Slots(hub)[p]) || Slots(hub)[p] in old(Slots(hub)).Values
  {
    ghost var lines := Lines(hub);
    RegistryStep(before, e);
    if e.Section? {
      EnterSection(hub, e.op);
      SectionKeepsRight(lines, e.op, Lines(hub), before);
    } else {
      ClientsAreSlots(hub, e.a);
      Relay(hub, e.a, e.data);
      FrameKeepsRight(lines, e.a, e.data, Lines(hub), before);
    }
  }

  /** The whole history on a new hub: it ends with the registry of the critical sections, and every
      client registered then was sent, of the output of its agent since it was added, what its
      protocol and session call for, and nothing else. */
  method Replay(events: seq<Event>) returns (hub: Hub)
    requires NamesClients(OpsOf(events))
    ensures fresh(hub) && fresh(hub.agents.Values) && fresh(Slots(hub).Values)
    ensures hub.Valid() && Separate(hub)
    ensures hub.View() == RegistryAfter(events) && LinesRight(Lines(hub), events)
    decreases |events|
  {
    if events == [] {
      hub := new Hub();
    } else {
      var front, e := events[..|events| - 1], events[|events| - 1];
      FrontIsNamed(events);
      hub := Replay(front);
      assert events == front + [e];
      Step(hub, e, front);
    }
  }

  lemma FrontIsNamed(events: seq<Event>)
    requires events != [] && NamesClients(OpsOf(events))
    ensures NamesClients(OpsOf(events[..|events| - 1]))
    ensures var e := events[|events| - 1]; e.Section? ==> NamesClients([e.op])
  {
    var n := |events| - 1;
    var ops, front := OpsOf(events), OpsOf(events[..n]);
    assert forall op :: op in front ==> op in ops;
    if events[n].Section? {
      assert ops[|front|] == events[n].op;
    }
  }

  lemma RegistryStep(events: seq<Event>, e: Event)
    ensures RegistryAfter(events + [e]) ==
      if e.Section? then Apply(RegistryAfter(events), e.op) else RegistryAfter(events)
  {
    assert (events + [e])[..|events|] == events;
    var ops := OpsOf(events);
    if e.Section? {
      assert (ops + [e.op])[..|ops|] == ops;
    } else {
      assert ops + [] == ops;
    }
  }

  // ----- a history of critical sections only

  function Sections(ops: seq<Op>): seq<Event> {
    seq(|ops|, i requires 0 <= i < |ops| => Section(ops[i]))
  }

  lemma {:induction false} OpsOfSections(ops: seq<Op>)
    ensures OpsOf(Sections(ops)) == ops
  {
    if ops != [] {
      var n := |ops| - 1;
      assert Sections(ops)[..n] == Sections(ops[..n]);
      OpsOfSections(ops[..n]);
    }
  }
}
