/** The frame codec of internal/muxframe/muxframe.go: a session id and a payload packed into one
    binary message, as two big-endian length bytes, the id, and the payload. */
module MuxFrame {
  import opened Wrappers

  newtype byte = x: int | 0 <= x < 0x100
  type Bytes = seq<byte>

  const MAX_ID := 0xFFFF

  datatype Frame = Frame(session: Bytes, payload: Bytes)

  datatype FrameError = FrameTooShort | MissingSessionId | SessionIdRequired | SessionIdTooLong

  type Encoded = Result<Bytes, FrameError>
  type Decoded = Result<Frame, FrameError>

  // ----- what the codec computes

  function Uint16(hi: byte, lo: byte): nat {
    hi as int * 0x100 + lo as int
  }

  function PutUint16(n: nat): Bytes
    requires n <= MAX_ID
  {
    [(n / 0x100) as byte, (n % 0x100) as byte]
  }

  function Encode(session: Bytes, payload: Bytes): Encoded {
    if |session| == 0 then Err(SessionIdRequired)
    else if |session| > MAX_ID then Err(SessionIdTooLong)
    else Ok(PutUint16(|session|) + session + payload)
  }

  function Decode(data: Bytes): Decoded {
    if |data| < 2 then Err(FrameTooShort)
    else
      var n := Uint16(data[0], data[1]);
      if |data| < 2 + n then Err(MissingSessionId)
      else if n == 0 then Err(SessionIdRequired)
      else Ok(Frame(data[2..2 + n], data[2 + n..]))
  }

  // ----- the codec is a bijection between encodable frames and decodable messages

  lemma EncodeThenDecode(session: Bytes, payload: Bytes)
    requires Encode(session, payload).Ok?
    ensures Decode(Encode(session, payload).value) == Ok(Frame(session, payload))
  {
  }

  lemma DecodeThenEncode(data: Bytes)
    requires Decode(data).Ok?
    ensures var f := Decode(data).value; Encode(f.session, f.payload) == Ok(data)
  {
    var f := Decode(data).value;
    var n := Uint16(data[0], data[1]);
    assert |f.session| == n <= MAX_ID;
    assert PutUint16(n) == data[..2];
    assert data == data[..2] + f.session + f.payload;
  }

  /** Decoding answers a frame exactly when encoding that frame answers the same bytes. */
  lemma CodecIsBijection(data: Bytes, session: Bytes, payload: Bytes)
    ensures Decode(data) == Ok(Frame(session, payload)) <==> Encode(session, payload) == Ok(data)
  {
    if Decode(data) == Ok(Frame(session, payload)) {
      DecodeThenEncode(data);
    }
    if Encode(session, payload) == Ok(data) {
      EncodeThenDecode(session, payload);
    }
  }

  /** `Decode` rejects a message only when no frame at all is sent as that message. */
  lemma RejectedIffNotAnEncoding(data: Bytes)
    ensures Decode(data).Err? <==> forall session, payload :: Encode(session, payload) != Ok(data)
  {
    forall session, payload ensures Encode(session, payload) == Ok(data) ==> Decode(data).Ok? {
      CodecIsBijection(data, session, payload);
    }
    if Decode(data).Ok? {
      var f := Decode(data).value;
      DecodeThenEncode(data);
      assert Encode(f.session, f.payload) == Ok(data);
    }
  }

  /** The layout of a frame, and the two errors: the id's length, high byte first, then the id, then the
      payload; an error exactly for an empty id and for one that two bytes cannot count. */
  lemma FrameLayout(session: Bytes, payload: Bytes)
    ensures Encode(session, payload) == Err(SessionIdRequired) <==> session == []
    ensures Encode(session, payload) == Err(SessionIdTooLong) <==> |session| > 0xFFFF
    ensures Encode(session, payload).Ok? ==> var data := Encode(session, payload).value;
      && |data| == 2 + |session| + |payload|
      && data[0] as int * 256 + data[1] as int == |session|
      && (forall i :: 0 <= i < |session| ==> data[2 + i] == session[i])
      && (forall i :: 0 <= i < |payload| ==> data[2 + |session| + i] == payload[i])
  {
  }

  // ----- the code as written: a buffer that is allocated and filled

  /** Go's `copy(dst[at:], src)` for a source that fits. */
  method Copy(dst: array<byte>, at: nat, src: Bytes)
    requires at + |src| <= dst.Length
    modifies dst
    ensures dst[..] == old(dst[..at]) + src + old(dst[at + |src|..])
  {
    var i := 0;
    while i < |src|
      invariant 0 <= i <= |src|
      invariant dst[..at] == old(dst[..at])
      invariant dst[at..at + i] == src[..i]
      invariant dst[at + i..] == old(dst[at + i..])
    {
      dst[at + i] := src[i];
      i := i + 1;
    }
    assert src[..|src|] == src;
    assert dst[..] == dst[..at] + dst[at..at + |src|] + dst[at + |src|..];
  }

  method EncodeBuffer(session: Bytes, payload: Bytes) returns (r: Encoded)
    ensures r == Encode(session, payload)
  {
    if |session| == 0 {
      return Err(SessionIdRequired);
    }
    if |session| > 0xFFFF {
      return Err(SessionIdTooLong);
    }
    var buf := new byte[2 + |session| + |payload|](_ => 0);
    Copy(buf, 0, [(|session| / 0x100) as byte, (|session| % 0x100) as byte]);
    Copy(buf, 2, session);
    assert buf[..2 + |session|] == PutUint16(|session|) + session;
    Copy(buf, 2 + |session|, payload);
    assert buf[..] == PutUint16(|session|) + session + payload;
    return Ok(buf[..]);
  }
}
