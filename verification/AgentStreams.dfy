/** The output side of the agent (internal/agent/agent.go): one forwarding goroutine for each attach,
    all writing frames on one connection while the message loop attaches and detaches. Messages, takes
    from an output channel and writes interleave freely; writes succeed. */
module AgentStreams {
  import opened Wrappers
  import opened MuxFrame
  import opened AgentTable
  import opened FanOut

  datatype Pc = Selecting | Holding(frame: Bytes) | Stopped

  /** The goroutine of one handle. `produced` is what the terminal session has put on its output
      channel so far, of which the first `taken` chunks have been taken. */
  datatype Forwarder = Forwarder(produced: seq<Bytes>, taken: nat, ended: bool, pc: Pc)

  datatype Sent = Sent(sender: nat, frame: Bytes)

  datatype State = State(table: Table, forwarders: seq<Forwarder>, wire: seq<Sent>)

  const INITIAL := State(EMPTY_TABLE, [], [])

  datatype Event =
    | Message(m: Inbound)
    | ConnectionFails
    | Produce(k: nat, chunk: Bytes)
    | OutputEnds(k: nat)
    | Take(k: nat)
    | Write(k: nat)
    | Stop(k: nat)

  function OnForwarder(s: State, k: nat, e: Event): State
    requires k < |s.forwarders| && k < |s.table.handles|
  {
    var f := s.forwarders[k];
    match e
    case Produce(_, chunk) =>
      if f.ended then s else s.(forwarders := s.forwarders[k := f.(produced := f.produced + [chunk])])
    case OutputEnds(_) => s.(forwarders := s.forwarders[k := f.(ended := true)])
    case Take(_) =>
      if !f.pc.Selecting? || f.taken >= |f.produced| then s
      else
        (match Encode(s.table.handles[k].id, f.produced[f.taken])
         case Ok(frame) => s.(forwarders := s.forwarders[k := f.(taken := f.taken + 1, pc := Holding(frame))])
         case Err(_) => s.(forwarders := s.forwarders[k := f.(taken := f.taken + 1)]))
    case Write(_) =>
      if !f.pc.Holding? then s
      else s.(forwarders := s.forwarders[k := f.(pc := Selecting)], wire := s.wire + [Sent(k, f.pc.frame)])
    case Stop(_) =>
      if f.pc.Selecting? && (s.table.handles[k].doneCloses > 0 || (f.ended && f.taken >= |f.produced|))
      then s.(forwarders := s.forwarders[k := f.(pc := Stopped)])
      else s
    case _ => s
  }

  function Next(s: State, e: Event): State {
    match e
    case Message(m) =>
      var t := OnMessage(s.table, m);
      s.(table := t,
         forwarders := if |t.handles| <= |s.table.handles| then s.forwarders
           else s.forwarders + [Forwarder([], 0, false, Selecting)])
    case ConnectionFails => s.(table := CloseAll(s.table))
    case _ => if e.k < |s.forwarders| && e.k < |s.table.handles| then OnForwarder(s, e.k, e) else s
  }

  function After(events: seq<Event>): State {
    if events == [] then INITIAL else Next(After(events[..|events| - 1]), events[|events| - 1])
  }

  // ----- what each goroutine has sent

  /** Everything on the connection, in order. */
  function Frames(wire: seq<Sent>): seq<Bytes> {
    if wire == [] then [] else Frames(wire[..|wire| - 1]) + [wire[|wire| - 1].frame]
  }

  /** What the goroutine of handle k has put there. */
  function FramesBy(wire: seq<Sent>, k: nat): seq<Bytes> {
    if wire == [] then []
    else
      var last := wire[|wire| - 1];
      FramesBy(wire[..|wire| - 1], k) + (if last.sender == k then [last.frame] else [])
  }

  function EncodeAll(id: Bytes, chunks: seq<Bytes>): seq<Bytes> {
    if chunks == [] then []
    else
      var n := |chunks| - 1;
      EncodeAll(id, chunks[..n]) + (match Encode(id, chunks[n]) case Ok(f) => [f] case Err(_) => [])
  }

  function Due(f: Forwarder): seq<Bytes> {
    if f.pc.Holding? then [f.pc.frame] else []
  }

  predicate StreamOk(s: State, k: nat)
    requires k < |s.forwarders| && k < |s.table.handles|
  {
    var f := s.forwarders[k];
    && f.taken <= |f.produced|
    && s.table.handles[k].id != []
    && FramesBy(s.wire, k) + Due(f) == EncodeAll(s.table.handles[k].id, f.produced[..f.taken])
    && (f.pc.Stopped? ==> s.table.handles[k].doneCloses > 0 || (f.ended && f.taken == |f.produced|))
  }

  ghost predicate Inv(s: State) {
    && |s.forwarders| == |s.table.handles|
    && (forall w :: w in s.wire ==> w.sender < |s.table.handles|)
    && (forall k :: 0 <= k < |s.forwarders| ==> StreamOk(s, k))
  }

  lemma NoFramesBefore(wire: seq<Sent>, k: nat)
    requires forall w :: w in wire ==> w.sender < k
    ensures FramesBy(wire, k) == []
  {
  }

  lemma FramesByAppend(wire: seq<Sent>, w: Sent, k: nat)
    ensures FramesBy(wire + [w], k) == FramesBy(wire, k) + if w.sender == k then [w.frame] else []
  {
  }

  lemma IdsAreFixed(t: Table, m: Inbound)
    ensures var t' := OnMessage(t, m);
      && |t.handles| <= |t'.handles| <= |t.handles| + 1
      && (forall k :: 0 <= k < |t.handles| ==>
            t'.handles[k].id == t.handles[k].id && t'.handles[k].doneCloses >= t.handles[k].doneCloses)
      && (|t'.handles| > |t.handles| ==> t'.handles[|t.handles|].id != [])
  {
  }

  lemma TableStepKeepsInv(s: State, e: Event)
    requires Inv(s) && (e.Message? || e.ConnectionFails?)
    ensures Inv(Next(s, e))
  {
    var t := Next(s, e);
    if e.Message? {
      IdsAreFixed(s.table, e.m);
    }
    forall k | 0 <= k < |t.forwarders| ensures StreamOk(t, k) {
      if k < |s.forwarders| {
        assert StreamOk(s, k);
      } else {
        NoFramesBefore(s.wire, k);
      }
    }
  }

  lemma TakeKeepsStream(s: State, k: nat)
    requires Inv(s) && k < |s.forwarders|
    ensures StreamOk(OnForwarder(s, k, Take(k)), k)
  {
    var f := s.forwarders[k];
    assert StreamOk(s, k);
    if f.pc.Selecting? && f.taken < |f.produced| {
      assert f.produced[..f.taken + 1][..f.taken] == f.produced[..f.taken];
      assert FramesBy(s.wire, k) + [] == FramesBy(s.wire, k);
    }
  }

  lemma WriteKeepsStream(s: State, k: nat)
    requires Inv(s) && k < |s.forwarders|
    ensures StreamOk(OnForwarder(s, k, Write(k)), k)
  {
    var f := s.forwarders[k];
    assert StreamOk(s, k);
    if f.pc.Holding? {
      var t := OnForwarder(s, k, Write(k));
      FramesByAppend(s.wire, Sent(k, f.pc.frame), k);
      var now := FramesBy(t.wire, k);
      assert now == FramesBy(s.wire, k) + Due(f);
      assert Due(t.forwarders[k]) == [] && now + [] == now;
    }
  }

  lemma ProduceKeepsStream(s: State, k: nat, chunk: Bytes)
    requires Inv(s) && k < |s.forwarders|
    ensures StreamOk(OnForwarder(s, k, Produce(k, chunk)), k)
  {
    var f := s.forwarders[k];
    assert StreamOk(s, k);
    assert (f.produced + [chunk])[..f.taken] == f.produced[..f.taken];
  }

  lemma OwnStreamKept(s: State, k: nat, e: Event)
    requires Inv(s) && k < |s.forwarders| && !e.Message? && !e.ConnectionFails? && e.k == k
    ensures StreamOk(OnForwarder(s, k, e), k)
  {
    assert StreamOk(s, k);
    match e
    case Take(_) => TakeKeepsStream(s, k);
    case Write(_) => WriteKeepsStream(s, k);
    case Produce(_, chunk) => ProduceKeepsStream(s, k, chunk);
    case _ =>
  }

  /** What a step of one goroutine leaves alone. */
  lemma ForwarderStep(s: State, e: Event)
    requires !e.Message? && !e.ConnectionFails? && e.k < |s.forwarders| && e.k < |s.table.handles|
    ensures var t, f := OnForwarder(s, e.k, e), s.forwarders[e.k];
      && t.table == s.table && |t.forwarders| == |s.forwarders|
      && (forall k :: 0 <= k < |s.forwarders| && k != e.k ==> t.forwarders[k] == s.forwarders[k])
      && t.wire == s.wire + if e.Write? && f.pc.Holding? then [Sent(e.k, f.pc.frame)] else []
  {
  }

  lemma OtherStreamKept(s: State, e: Event, k: nat)
    requires Inv(s) && k < |s.forwarders| && !e.Message? && !e.ConnectionFails? && e.k < |s.forwarders| && e.k != k
    ensures StreamOk(OnForwarder(s, e.k, e), k)
  {
    var t := OnForwarder(s, e.k, e);
    ForwarderStep(s, e);
    if e.Write? && s.forwarders[e.k].pc.Holding? {
      FramesByAppend(s.wire, Sent(e.k, s.forwarders[e.k].pc.frame), k);
    }
    assert StreamOk(s, k) && t.forwarders[k] == s.forwarders[k];
    assert FramesBy(t.wire, k) == FramesBy(s.wire, k);
  }

  lemma StepKeepsInv(s: State, e: Event)
    requires Inv(s)
    ensures Inv(Next(s, e))
  {
    if e.Message? || e.ConnectionFails? {
      TableStepKeepsInv(s, e);
    } else if e.k < |s.forwarders| {
      var t := OnForwarder(s, e.k, e);
      OwnStreamKept(s, e.k, e);
      forall k | 0 <= k < |t.forwarders| && k != e.k ensures StreamOk(t, k) {
        OtherStreamKept(s, e, k);
      }
    }
  }

  lemma {:induction false} InvHolds(events: seq<Event>)
    ensures Inv(After(events))
  {
    if events != [] {
      InvHolds(events[..|events| - 1]);
      StepKeepsInv(After(events[..|events| - 1]), events[|events| - 1]);
    }
  }

  // ----- demultiplexing

  /** The payloads of frames that decode. */
  function Payloads(frames: seq<Bytes>): seq<Bytes> {
    if frames == [] then []
    else
      var n := |frames| - 1;
      Payloads(frames[..n]) + (match Decode(frames[n]) case Ok(f) => [f.payload] case Err(_) => [])
  }

  lemma {:induction false} EncodedStream(id: Bytes, chunks: seq<Bytes>)
    requires id != []
    ensures |id| > MAX_ID ==> EncodeAll(id, chunks) == []
    ensures |id| <= MAX_ID ==>
      && |EncodeAll(id, chunks)| == |chunks|
      && forall j :: 0 <= j < |chunks| ==> Decode(EncodeAll(id, chunks)[j]) == Ok(Frame(id, chunks[j]))
  {
    if chunks != [] {
      var n := |chunks| - 1;
      EncodedStream(id, chunks[..n]);
      if |id| <= MAX_ID {
        EncodeThenDecode(id, chunks[n]);
      }
    }
  }

  /** What handle k has on the connection decodes to an in-order, unaltered prefix of what its terminal
      put out, each chunk under the handle's own id; nothing if that id is too long to be framed. */
  predicate SendsPrefix(s: State, k: nat)
    requires k < |s.forwarders| && k < |s.table.handles|
  {
    var id, frames, produced := s.table.handles[k].id, FramesBy(s.wire, k), s.forwarders[k].produced;
    if |id| > MAX_ID then frames == []
    else
      && |frames| <= |produced|
      && forall j :: 0 <= j < |frames| ==> Decode(frames[j]) == Ok(Frame(id, produced[j]))
  }

  lemma StreamIsPrefix(s: State, k: nat)
    requires k < |s.forwarders| && k < |s.table.handles| && StreamOk(s, k)
    ensures SendsPrefix(s, k)
  {
    var id, f := s.table.handles[k].id, s.forwarders[k];
    var frames, chunks := FramesBy(s.wire, k), f.produced[..f.taken];
    EncodedStream(id, chunks);
    assert forall j :: 0 <= j < |frames| ==> frames[j] == (frames + Due(f))[j];
  }

  /** Demultiplexing any merge: under every interleaving each attach, whatever happened to it since, has
      sent an in-order, unaltered prefix of its own output. */
  lemma EachAttachSendsPrefix(events: seq<Event>, k: nat)
    requires k < |After(events).forwarders|
    ensures |After(events).forwarders| == |After(events).table.handles|
    ensures SendsPrefix(After(events), k)
  {
    InvHolds(events);
    StreamIsPrefix(After(events), k);
  }

  /** Nothing is lost while a session stays attached: once its output has ended and its goroutine has
      stopped, an attach that was not closed has sent every chunk of it. */
  lemma OpenStreamIsComplete(events: seq<Event>, k: nat)
    requires k < |After(events).forwarders| && k < |After(events).table.handles|
    requires After(events).forwarders[k].pc.Stopped? && After(events).table.handles[k].doneCloses == 0
    requires |After(events).table.handles[k].id| <= MAX_ID
    ensures var s := After(events);
      && |FramesBy(s.wire, k)| == |s.forwarders[k].produced|
      && SendsPrefix(s, k)
  {
    var s := After(events);
    InvHolds(events);
    assert StreamOk(s, k);
    var f := s.forwarders[k];
    EncodedStream(s.table.handles[k].id, f.produced[..f.taken]);
    StreamIsPrefix(s, k);
  }

  /** A frame on the connection names the session of the handle that sent it. */
  predicate NamesSender(s: State, w: Sent) {
    w.sender < |s.table.handles| && Decode(w.frame).Ok? && Decode(w.frame).value.session == s.table.handles[w.sender].id
  }

  /** The handles that sent what the connection carries for a session, frame by frame. */
  function SendersOf(s: State, wire: seq<Sent>, id: Bytes): (senders: seq<nat>)
    ensures forall i :: 0 <= i < |senders| ==> senders[i] < |s.table.handles| && s.table.handles[senders[i]].id == id
  {
    if wire == [] then []
    else
      var n := |wire| - 1;
      var k := wire[n].sender;
      SendersOf(s, wire[..n], id) + (if k < |s.table.handles| && s.table.handles[k].id == id then [k] else [])
  }

  lemma PayloadsOfAppend(frames: seq<Bytes>, frame: Bytes)
    ensures Payloads(frames + [frame]) ==
      Payloads(frames) + match Decode(frame) case Ok(f) => [f.payload] case Err(_) => []
  {
    assert (frames + [frame])[..|frames|] == frames;
  }

  /** Demultiplexing the connection by session gives an order-preserving merge of what each handle of that
      session sent. */
  lemma {:induction false} PayloadsOfMerge(s: State, wire: seq<Sent>, id: Bytes)
    requires forall w :: w in wire ==> NamesSender(s, w)
    ensures var got, senders := PayloadsOf(id, Frames(wire)), SendersOf(s, wire, id);
      && |senders| == |got|
      && forall k :: 0 <= k < |s.table.handles| && s.table.handles[k].id == id ==>
           Part(senders, got, k) == Payloads(FramesBy(wire, k))
  {
    if wire != [] {
      var n := |wire| - 1;
      var front, w := wire[..n], wire[n];
      PayloadsOfMerge(s, front, id);
      assert w in wire && NamesSender(s, w);
      assert wire == front + [w];
      FrameAdds(s, front, w, id);
      forall k | 0 <= k < |s.table.handles| && s.table.handles[k].id == id
        ensures Part(SendersOf(s, wire, id), PayloadsOf(id, Frames(wire)), k) == Payloads(FramesBy(wire, k))
      {
        MergeStep(s, front, w, id, k);
      }
    }
  }

  lemma OnePayload(id: Bytes, frame: Bytes)
    ensures PayloadsOf(id, [frame]) ==
      match Decode(frame) case Ok(f) => (if f.session == id then [f.payload] else []) case Err(_) => []
  {
    assert [frame][..0] == [];
  }

  /** One more frame on the connection, for a session or not. */
  lemma FrameAdds(s: State, front: seq<Sent>, w: Sent, id: Bytes)
    requires NamesSender(s, w)
    ensures var mine := s.table.handles[w.sender].id == id;
      && SendersOf(s, front + [w], id) == SendersOf(s, front, id) + (if mine then [w.sender] else [])
      && PayloadsOf(id, Frames(front + [w])) ==
           PayloadsOf(id, Frames(front)) + (if mine then [Decode(w.frame).value.payload] else [])
  {
    assert (front + [w])[..|front|] == front;
    PayloadsAppend(id, Frames(front), w.frame);
    OnePayload(id, w.frame);
  }

  lemma MergeStep(s: State, front: seq<Sent>, w: Sent, id: Bytes, k: nat)
    requires NamesSender(s, w) && k < |s.table.handles| && s.table.handles[k].id == id
    requires |SendersOf(s, front, id)| == |PayloadsOf(id, Frames(front))|
    requires Part(SendersOf(s, front, id), PayloadsOf(id, Frames(front)), k) == Payloads(FramesBy(front, k))
    ensures var wire := front + [w];
      && |SendersOf(s, wire, id)| == |PayloadsOf(id, Frames(wire))|
      && Part(SendersOf(s, wire, id), PayloadsOf(id, Frames(wire)), k) == Payloads(FramesBy(wire, k))
  {
    var got, senders := PayloadsOf(id, Frames(front)), SendersOf(s, front, id);
    var mine := FramesBy(front, k);
    FrameAdds(s, front, w, id);
    FramesByAppend(front, w, k);
    if w.sender == k {
      PayloadsOfAppend(mine, w.frame);
    } else {
      assert mine + [] == mine;
    }
    if s.table.handles[w.sender].id == id {
      PartAppend(senders, got, w.sender, Decode(w.frame).value.payload, k);
    } else {
      assert senders + [] == senders && got + [] == got;
    }
  }

  lemma {:induction false} WireIsFramesBy(wire: seq<Sent>, i: nat) returns (j: nat)
    requires i < |wire|
    ensures j < |FramesBy(wire, wire[i].sender)| && FramesBy(wire, wire[i].sender)[j] == wire[i].frame
  {
    var n := |wire| - 1;
    if i == n {
      j := |FramesBy(wire, wire[i].sender)| - 1;
    } else {
      j := WireIsFramesBy(wire[..n], i);
    }
  }

  lemma {:induction false} PayloadsOfPrefix(id: Bytes, frames: seq<Bytes>, produced: seq<Bytes>)
    requires |frames| <= |produced|
    requires forall j :: 0 <= j < |frames| ==> Decode(frames[j]) == Ok(Frame(id, produced[j]))
    ensures Payloads(frames) == produced[..|frames|]
  {
    if frames != [] {
      var n := |frames| - 1;
      PayloadsOfPrefix(id, frames[..n], produced);
      assert produced[..n + 1] == produced[..n] + [produced[n]];
    }
  }

  lemma FramesNameSenders(events: seq<Event>)
    ensures forall w :: w in After(events).wire ==> NamesSender(After(events), w)
  {
    var s := After(events);
    InvHolds(events);
    forall w | w in s.wire ensures NamesSender(s, w) {
      var i :| 0 <= i < |s.wire| && s.wire[i] == w;
      var j := WireIsFramesBy(s.wire, i);
      EachAttachSendsPrefix(events, w.sender);
    }
  }

  /** The output path end to end: what a client of either protocol that was registered throughout receives
      for a session is an order-preserving merge of one in-order, unaltered prefix of the output of each
      attach of that session, however often it was attached and whatever else shares the connection. */
  lemma {:induction false} SessionOutputEndToEnd(events: seq<Event>, id: Bytes) returns (senders: seq<nat>)
    requires id != []
    ensures var s := After(events);
      var got := Received(1, id, Frames(s.wire));
      && got == PayloadsOf(id, Received(2, [], Frames(s.wire)))
      && |s.forwarders| == |s.table.handles| && |senders| == |got|
      && (forall i :: 0 <= i < |senders| ==> senders[i] < |s.table.handles| && s.table.handles[senders[i]].id == id)
      && forall k :: 0 <= k < |s.table.handles| && s.table.handles[k].id == id ==>
           && |FramesBy(s.wire, k)| <= |s.forwarders[k].produced|
           && Part(senders, got, k) == s.forwarders[k].produced[..|FramesBy(s.wire, k)|]
  {
    var s := After(events);
    InvHolds(events);
    FramesNameSenders(events);
    PayloadsOfMerge(s, s.wire, id);
    senders := SendersOf(s, s.wire, id);
    ReceivedPayloads(id, Frames(s.wire));
    ProtocolsAgree(id, [], Frames(s.wire));
    forall k | 0 <= k < |s.table.handles| && s.table.handles[k].id == id
      ensures |FramesBy(s.wire, k)| <= |s.forwarders[k].produced|
      ensures Payloads(FramesBy(s.wire, k)) == s.forwarders[k].produced[..|FramesBy(s.wire, k)|]
    {
      EachAttachSendsPrefix(events, k);
      PayloadsOfPrefix(id, FramesBy(s.wire, k), s.forwarders[k].produced);
    }
  }

  /** A session attached once: the clients receive an in-order, unaltered prefix of its output. */
  lemma SoleAttachIsPrefix(events: seq<Event>, k: nat)
    requires k < |After(events).table.handles|
    requires var handles := After(events).table.handles;
      forall j :: 0 <= j < |handles| && handles[j].id == handles[k].id ==> j == k
    ensures var s := After(events);
      && k < |s.forwarders| && |FramesBy(s.wire, k)| <= |s.forwarders[k].produced|
      && Received(1, s.table.handles[k].id, Frames(s.wire)) == s.forwarders[k].produced[..|FramesBy(s.wire, k)|]
  {
    var s := After(events);
    InvHolds(events);
    assert StreamOk(s, k);
    var senders := SessionOutputEndToEnd(events, s.table.handles[k].id);
    AllOneLabel(senders, Received(1, s.table.handles[k].id, Frames(s.wire)), k);
  }

  lemma {:induction false} ReceivedPayloads(id: Bytes, frames: seq<Bytes>)
    requires id != []
    ensures Received(1, id, frames) == PayloadsOf(id, frames)
  {
    if frames != [] {
      ReceivedPayloads(id, frames[..|frames| - 1]);
    }
  }
}
