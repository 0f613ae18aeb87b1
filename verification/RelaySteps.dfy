/** The relay of output as a concurrent state machine (internal/hub/hub.go:247-289): several agent
    connections, also of one agent, read frames; each takes a snapshot of the clients and then writes to
    them one at a time, while clients and agents come and go. */
module RelaySteps {
  import opened MuxFrame
  import opened Registry
  import opened FanOut

  /** A frame as one connection read it, with the clients in the snapshot taken for it. `at` counts the
      critical sections before the snapshot. */
  datatype Taken = Taken(data: Bytes, snap: map<ClientId, Client>, at: nat)

  datatype Pc = Reading | Relaying(data: Bytes, todo: map<ClientId, Client>)

  /** The read loop of one connection. */
  datatype Loop = Loop(a: AgentId, pc: Pc, read: seq<Taken>)

  datatype Sent = Sent(loop: nat, to: ClientId, data: Bytes)

  datatype State = State(agents: Agents, ops: seq<Op>, loops: seq<Loop>, out: seq<Sent>)

  const INITIAL := State(map[], [], [], [])

  /** A critical section, a new connection, a frame read, or the next client of a relay. */
  datatype Event = Section(op: Op) | Connect(a: AgentId) | Read(k: nat, data: Bytes) | Write(k: nat, id: ClientId)

  function OnRead(s: State, k: nat, data: Bytes): State
    requires k < |s.loops|
  {
    var l := s.loops[k];
    if !l.pc.Reading? then s
    else
      var snap := if Decode(data).Ok? then Snapshot(s.agents, l.a) else map[];
      var pc := if snap == map[] then Reading else Relaying(data, snap);
      s.(loops := s.loops[k := l.(pc := pc, read := l.read + [Taken(data, snap, |s.ops|)])])
  }

  /** The message for one client of a relay, if there is one. */
  function MessageFor(k: nat, id: ClientId, c: Client, data: Bytes): seq<Sent> {
    var payloads := Relayed(c.proto, c.session, data);
    if payloads == [] then [] else [Sent(k, id, payloads[0])]
  }

  function OnWrite(s: State, k: nat, id: ClientId): State
    requires k < |s.loops|
  {
    var l := s.loops[k];
    if !l.pc.Relaying? || id !in l.pc.todo then s
    else
      var rest := l.pc.todo - {id};
      var pc := if rest == map[] then Reading else l.pc.(todo := rest);
      s.(loops := s.loops[k := l.(pc := pc)], out := s.out + MessageFor(k, id, l.pc.todo[id], l.pc.data))
  }

  function Next(s: State, e: Event): State {
    match e
    case Section(op) => s.(agents := Apply(s.agents, op), ops := s.ops + [op])
    case Connect(a) => s.(loops := s.loops + [Loop(a, Reading, [])])
    case Read(k, data) => if k < |s.loops| then OnRead(s, k, data) else s
    case Write(k, id) => if k < |s.loops| then OnWrite(s, k, id) else s
  }

  function After(events: seq<Event>): State {
    if events == [] then INITIAL else Next(After(events[..|events| - 1]), events[|events| - 1])
  }

  // ----- what one connection has sent to one client

  function OutTo(out: seq<Sent>, k: nat, id: ClientId): seq<Bytes> {
    if out == [] then []
    else
      var m := out[|out| - 1];
      OutTo(out[..|out| - 1], k, id) + (if m.loop == k && m.to == id then [m.data] else [])
  }

  /** What a client should be sent for the frames read: the relayed form of each whose snapshot it is in. */
  function Should(read: seq<Taken>, id: ClientId): seq<Bytes> {
    if read == [] then []
    else
      var t := read[|read| - 1];
      Should(read[..|read| - 1], id) +
        (if id in t.snap then Relayed(t.snap[id].proto, t.snap[id].session, t.data) else [])
  }

  /** What a relay that is under way still has to send to a client. */
  function StillDue(l: Loop, id: ClientId): seq<Bytes> {
    if l.pc.Relaying? && id in l.pc.todo
    then Relayed(l.pc.todo[id].proto, l.pc.todo[id].session, l.pc.data)
    else []
  }

  predicate SentAsRead(s: State, k: nat, id: ClientId)
    requires k < |s.loops|
  {
    OutTo(s.out, k, id) + StillDue(s.loops[k], id) == Should(s.loops[k].read, id)
  }

  lemma RelayedAtMostOne(proto: nat, session: Bytes, data: Bytes)
    ensures |Relayed(proto, session, data)| <= 1
  {
  }

  lemma OutAppend(out: seq<Sent>, j: nat, to: ClientId, c: Client, data: Bytes, k: nat, id: ClientId)
    ensures OutTo(out + MessageFor(j, to, c, data), k, id) ==
      OutTo(out, k, id) + if j == k && to == id then Relayed(c.proto, c.session, data) else []
  {
    var more := MessageFor(j, to, c, data);
    RelayedAtMostOne(c.proto, c.session, data);
    if more == [] {
      assert out + more == out;
    } else {
      assert (out + more)[..|out|] == out;
    }
  }

  lemma ReadKeeps(s: State, j: nat, data: Bytes, k: nat, id: ClientId)
    requires j < |s.loops| && k < |s.loops| && SentAsRead(s, k, id)
    ensures SentAsRead(OnRead(s, j, data), k, id)
  {
    var l := s.loops[j];
    if j == k && l.pc.Reading? {
      var t := OnRead(s, j, data);
      assert t.loops[k].read[..|l.read|] == l.read;
      assert OutTo(s.out, k, id) + [] == OutTo(s.out, k, id);
    }
  }

  lemma WriteKeeps(s: State, j: nat, to: ClientId, k: nat, id: ClientId)
    requires j < |s.loops| && k < |s.loops| && SentAsRead(s, k, id)
    ensures SentAsRead(OnWrite(s, j, to), k, id)
  {
    var l := s.loops[j];
    if l.pc.Relaying? && to in l.pc.todo {
      OutAppend(s.out, j, to, l.pc.todo[to], l.pc.data, k, id);
      var before := OutTo(s.out, k, id);
      assert before + [] == before;
      assert (before + StillDue(s.loops[k], id)) + [] == before + StillDue(s.loops[k], id);
      if j == k {
        var rest := l.pc.todo - {to};
        assert id in rest <==> id in l.pc.todo && id != to;
        assert StillDue(OnWrite(s, j, to).loops[k], id) == if id == to then [] else StillDue(l, id);
      }
    }
  }

  predicate LoopsExist(s: State) {
    forall m :: m in s.out ==> m.loop < |s.loops|
  }

  lemma {:induction false} LoopsExistAfter(events: seq<Event>)
    ensures LoopsExist(After(events))
  {
    if events != [] {
      LoopsExistAfter(events[..|events| - 1]);
    }
  }

  lemma {:induction false} NothingOutBefore(out: seq<Sent>, k: nat, id: ClientId)
    requires forall m :: m in out ==> m.loop < k
    ensures OutTo(out, k, id) == []
  {
    if out != [] {
      assert out[|out| - 1] in out;
      NothingOutBefore(out[..|out| - 1], k, id);
    }
  }

  lemma StepKeeps(s: State, e: Event, k: nat, id: ClientId)
    requires k < |s.loops| && SentAsRead(s, k, id)
    ensures SentAsRead(Next(s, e), k, id)
  {
    match e
    case Read(j, data) =>
      if j < |s.loops| {
        ReadKeeps(s, j, data, k, id);
      }
    case Write(j, to) =>
      if j < |s.loops| {
        WriteKeeps(s, j, to, k, id);
      }
    case _ =>
  }

  /** Under every interleaving each connection has sent each client, with what it still has to send, the
      relayed form of exactly those frames it read while the client was in the snapshot, in order. */
  lemma {:induction false} RelayedInOrder(events: seq<Event>, k: nat, id: ClientId)
    requires k < |After(events).loops|
    ensures SentAsRead(After(events), k, id)
  {
    assert events != [];
    var s, e := After(events[..|events| - 1]), events[|events| - 1];
    assert After(events) == Next(s, e);
    if k < |s.loops| {
      RelayedInOrder(events[..|events| - 1], k, id);
      StepKeeps(s, e, k, id);
    } else {
      LoopsExistAfter(events[..|events| - 1]);
      NewLoopSentNothing(s, e, k, id);
    }
  }

  lemma NewLoopSentNothing(s: State, e: Event, k: nat, id: ClientId)
    requires LoopsExist(s) && |s.loops| <= k < |Next(s, e).loops|
    ensures SentAsRead(Next(s, e), k, id)
  {
    NothingOutBefore(s.out, k, id);
  }

  // ----- the snapshots

  ghost predicate SnapshotsOk(s: State) {
    && s.agents == Run(map[], s.ops)
    && forall k, n :: 0 <= k < |s.loops| && 0 <= n < |s.loops[k].read| ==>
         IsSnapshot(s.ops, s.loops[k].a, s.loops[k].read[n])
  }

  /** The clients registered with the agent after the first `at` critical sections, if the frame decodes. */
  predicate IsSnapshot(ops: seq<Op>, a: AgentId, t: Taken) {
    t.at <= |ops| && t.snap == if Decode(t.data).Ok? then Snapshot(Run(map[], ops[..t.at]), a) else map[]
  }

  lemma SectionKeepsSnapshots(s: State, op: Op)
    requires SnapshotsOk(s)
    ensures SnapshotsOk(Next(s, Section(op)))
  {
    var ops := s.ops + [op];
    assert ops[..|s.ops|] == s.ops;
    forall k, n | 0 <= k < |s.loops| && 0 <= n < |s.loops[k].read|
      ensures IsSnapshot(ops, s.loops[k].a, s.loops[k].read[n])
    {
      assert IsSnapshot(s.ops, s.loops[k].a, s.loops[k].read[n]);
      assert ops[..s.loops[k].read[n].at] == s.ops[..s.loops[k].read[n].at];
    }
  }

  lemma ReadKeepsSnapshots(s: State, k: nat, data: Bytes)
    requires SnapshotsOk(s) && k < |s.loops|
    ensures SnapshotsOk(OnRead(s, k, data))
  {
    assert s.ops[..|s.ops|] == s.ops;
  }

  /** The clients a frame is relayed to are those registered with the agent when the snapshot was taken. */
  lemma {:induction false} SnapshotsAreRegistry(events: seq<Event>)
    ensures SnapshotsOk(After(events))
  {
    if events != [] {
      var s := After(events[..|events| - 1]);
      SnapshotsAreRegistry(events[..|events| - 1]);
      match events[|events| - 1]
      case Section(op) => SectionKeepsSnapshots(s, op);
      case Read(k, data) =>
        if k < |s.loops| {
          ReadKeepsSnapshots(s, k, data);
        }
      case _ =>
    }
  }

  // ----- what one client receives

  function StreamTo(out: seq<Sent>, id: ClientId): seq<Bytes> {
    if out == [] then []
    else
      var m := out[|out| - 1];
      StreamTo(out[..|out| - 1], id) + (if m.to == id then [m.data] else [])
  }

  /** The connection that each message of the stream came over. */
  function LoopsTo(out: seq<Sent>, id: ClientId): (loops: seq<nat>)
    ensures |loops| == |StreamTo(out, id)|
  {
    if out == [] then []
    else
      var m := out[|out| - 1];
      LoopsTo(out[..|out| - 1], id) + (if m.to == id then [m.loop] else [])
  }

  lemma {:induction false} StreamIsMerge(out: seq<Sent>, k: nat, id: ClientId)
    ensures Part(LoopsTo(out, id), StreamTo(out, id), k) == OutTo(out, k, id)
  {
    if out != [] {
      var front, m := out[..|out| - 1], out[|out| - 1];
      StreamIsMerge(front, k, id);
      if m.to == id {
        PartAppend(LoopsTo(front, id), StreamTo(front, id), m.loop, m.data, k);
      } else {
        assert OutTo(front, k, id) + [] == OutTo(front, k, id);
        assert LoopsTo(front, id) + [] == LoopsTo(front, id) && StreamTo(front, id) + [] == StreamTo(front, id);
      }
    }
  }

  /** A client's stream is a merge that keeps the order of each connection: its part from a connection that
      is between frames is the relayed form of exactly those frames whose snapshot it was in. */
  lemma ClientStream(events: seq<Event>, k: nat, id: ClientId)
    requires k < |After(events).loops| && After(events).loops[k].pc.Reading?
    ensures var s := After(events);
      Part(LoopsTo(s.out, id), StreamTo(s.out, id), k) == Should(s.loops[k].read, id)
  {
    var s := After(events);
    RelayedInOrder(events, k, id);
    StreamIsMerge(s.out, k, id);
    assert OutTo(s.out, k, id) + [] == OutTo(s.out, k, id);
  }

  function DataOf(read: seq<Taken>): seq<Bytes> {
    if read == [] then [] else DataOf(read[..|read| - 1]) + [read[|read| - 1].data]
  }

  /** A client that was in every snapshot should be sent what `FanOut.Received` says. */
  lemma {:induction false} AlwaysThere(read: seq<Taken>, c: Client)
    requires forall n :: 0 <= n < |read| && Decode(read[n].data).Ok? ==> c.id in read[n].snap && read[n].snap[c.id] == c
    requires forall n :: 0 <= n < |read| && Decode(read[n].data).Err? ==> c.id !in read[n].snap
    ensures Should(read, c.id) == Received(c.proto, c.session, DataOf(read))
  {
    if read != [] {
      var n := |read| - 1;
      AlwaysThere(read[..n], c);
      var before := DataOf(read[..n]);
      assert (before + [read[n].data])[..|before|] == before;
    }
  }
}
