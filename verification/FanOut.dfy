/** What the clients of an agent receive of its output frames, `ServeAgentConn` in
    internal/hub/hub.go: new-protocol clients get whole frames, old-protocol clients the payloads of
    their own session. */
module FanOut {
  import opened MuxFrame

  /** What one frame becomes for a client; nothing if the frame is invalid or meant for another session. */
  function Relayed(proto: nat, session: Bytes, frame: Bytes): seq<Bytes> {
    match Decode(frame)
    case Err(_) => []
    case Ok(f) =>
      if proto >= 2 then [frame]
      else if session != [] && f.session != session then []
      else [f.payload]
  }

  /** The binary messages that a client registered over all of `frames` receives. */
  function Received(proto: nat, session: Bytes, frames: seq<Bytes>): seq<Bytes> {
    if frames == [] then []
    else Received(proto, session, frames[..|frames| - 1]) + Relayed(proto, session, frames[|frames| - 1])
  }

  /** A new-protocol stream, demultiplexed: the payloads of one session. */
  function PayloadsOf(session: Bytes, stream: seq<Bytes>): seq<Bytes> {
    if stream == [] then []
    else
      var n := |stream| - 1;
      PayloadsOf(session, stream[..n]) +
      (match Decode(stream[n])
       case Ok(f) => if f.session == session then [f.payload] else []
       case Err(_) => [])
  }

  /** The frames that carry output of one session. */
  function OfSession(session: Bytes, frames: seq<Bytes>): seq<Bytes> {
    if frames == [] then []
    else
      var n := |frames| - 1;
      OfSession(session, frames[..n]) +
      (if Decode(frames[n]).Ok? && Decode(frames[n]).value.session == session then [frames[n]] else [])
  }

  lemma PayloadsAppend(session: Bytes, stream: seq<Bytes>, frame: Bytes)
    ensures PayloadsOf(session, stream + [frame]) == PayloadsOf(session, stream) + PayloadsOf(session, [frame])
  {
  }

  /** Protocol agreement: an old-protocol client of a session receives exactly the payloads, in order,
      that a new-protocol client over the same frames finds in its own stream for that session. */
  lemma {:induction false} ProtocolsAgree(session: Bytes, other: Bytes, frames: seq<Bytes>)
    requires session != []
    ensures Received(1, session, frames) == PayloadsOf(session, Received(2, other, frames))
  {
    if frames != [] {
      var n := |frames| - 1;
      ProtocolsAgree(session, other, frames[..n]);
      var stream := Received(2, other, frames[..n]);
      if Decode(frames[n]).Ok? {
        PayloadsAppend(session, stream, frames[n]);
        assert [frames[n]][..0] == [];
      } else {
        assert stream + [] == stream;
      }
    }
  }

  /** An old-protocol client's stream depends on the frames of its own session only. */
  lemma {:induction false} OtherSessionsAreInvisible(session: Bytes, frames: seq<Bytes>)
    requires session != []
    ensures Received(1, session, frames) == Received(1, session, OfSession(session, frames))
  {
    if frames != [] {
      var n := |frames| - 1;
      OtherSessionsAreInvisible(session, frames[..n]);
      var mine := OfSession(session, frames[..n]);
      if Decode(frames[n]).Ok? && Decode(frames[n]).value.session == session {
        assert (mine + [frames[n]])[..|mine|] == mine;
      } else {
        assert mine + [] == mine;
      }
    }
  }

  /** A new-protocol client receives the frames at exactly those positions that decode, each once and in
      their order. */
  lemma {:induction false} ValidFramesAreKept(session: Bytes, frames: seq<Bytes>) returns (picks: seq<nat>)
    ensures |picks| == |Received(2, session, frames)|
    ensures forall i, j :: 0 <= i < j < |picks| ==> picks[i] < picks[j]
    ensures forall i :: 0 <= i < |picks| ==>
      picks[i] < |frames| && Received(2, session, frames)[i] == frames[picks[i]]
    ensures forall n :: 0 <= n < |frames| ==> (n in picks <==> Decode(frames[n]).Ok?)
  {
    if frames == [] {
      picks := [];
    } else {
      var n := |frames| - 1;
      picks := ValidFramesAreKept(session, frames[..n]);
      if Decode(frames[n]).Ok? {
        picks := picks + [n];
      }
    }
  }

  /** An old-protocol client without a session receives the payload of every frame that decodes, each once
      and in order. */
  lemma {:induction false} SessionlessReceivesAll(frames: seq<Bytes>) returns (picks: seq<nat>)
    ensures |picks| == |Received(1, [], frames)|
    ensures forall i, j :: 0 <= i < j < |picks| ==> picks[i] < picks[j]
    ensures forall i :: 0 <= i < |picks| ==>
      picks[i] < |frames| && Decode(frames[picks[i]]).Ok?
      && Received(1, [], frames)[i] == Decode(frames[picks[i]]).value.payload
    ensures forall n :: 0 <= n < |frames| ==> (n in picks <==> Decode(frames[n]).Ok?)
  {
    if frames == [] {
      picks := [];
    } else {
      var n := |frames| - 1;
      picks := SessionlessReceivesAll(frames[..n]);
      if Decode(frames[n]).Ok? {
        picks := picks + [n];
      }
    }
  }

  // ----- merges

  /** The part of a labelled sequence that carries label k. */
  function Part(labels: seq<nat>, values: seq<Bytes>, k: nat): seq<Bytes>
    requires |labels| == |values|
  {
    if labels == [] then []
    else
      var n := |labels| - 1;
      Part(labels[..n], values[..n], k) + (if labels[n] == k then [values[n]] else [])
  }

  lemma PartAppend(labels: seq<nat>, values: seq<Bytes>, next: nat, value: Bytes, k: nat)
    requires |labels| == |values|
    ensures Part(labels + [next], values + [value], k) == Part(labels, values, k) + if next == k then [value] else []
  {
    assert (labels + [next])[..|labels|] == labels && (values + [value])[..|values|] == values;
  }

  lemma {:induction false} AllOneLabel(labels: seq<nat>, values: seq<Bytes>, k: nat)
    requires |labels| == |values| && forall i :: 0 <= i < |labels| ==> labels[i] == k
    ensures Part(labels, values, k) == values
  {
    if labels != [] {
      var n := |labels| - 1;
      AllOneLabel(labels[..n], values[..n], k);
      assert values == values[..n] + [values[n]];
    }
  }
}
