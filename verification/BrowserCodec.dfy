/** The browser's twin of the codec, `encodeFrame` and `decodeFrame` of web/app.js, which packs and
    unpacks the length with shifts, masks and an or. The operators are modelled bit by bit on
    non-negative 32-bit numbers. */
module BrowserCodec {
  import opened Wrappers
  import opened MuxFrame

  // ----- the operators

  function Pow2(k: nat): (p: nat)
    ensures p > 0
  {
    if k == 0 then 1 else 2 * Pow2(k - 1)
  }

  function ShiftRight(n: nat, k: nat): nat
    decreases k, n
  {
    if k == 0 then n else ShiftRight(n / 2, k - 1)
  }

  /** A left shift loses what leaves the 32-bit word. */
  function ShiftLeft(n: nat, k: nat): nat
    decreases k, n
  {
    if k == 0 then n else ShiftLeft((2 * n) % 0x1_0000_0000, k - 1)
  }

  function And(a: nat, b: nat): nat {
    if a == 0 || b == 0 then 0
    else (if a % 2 == 1 && b % 2 == 1 then 1 else 0) + 2 * And(a / 2, b / 2)
  }

  function Or(a: nat, b: nat): nat
    decreases a + b
  {
    if a == 0 then b
    else if b == 0 then a
    else (if a % 2 == 1 || b % 2 == 1 then 1 else 0) + 2 * Or(a / 2, b / 2)
  }

  lemma MultipleIsFar(d: int, m: int)
    requires m > 0
    ensures d > 0 ==> d * m >= m
    ensures d < 0 ==> d * m <= -m
  {
  }

  lemma ModUnique(n: nat, m: nat, q: nat, r: nat)
    requires m > 0 && n == q * m + r && r < m
    ensures n % m == r && n / m == q
  {
    var d := n / m - q;
    assert d * m == n / m * m - q * m == r - n % m;
    MultipleIsFar(d, m);
  }

  lemma HalfOfMod(n: nat, k: nat)
    ensures n % Pow2(k + 1) == n % 2 + 2 * ((n / 2) % Pow2(k))
  {
    var p := Pow2(k);
    var q, r := (n / 2) / p, (n / 2) % p;
    assert n / 2 == q * p + r;
    assert q * (2 * p) == 2 * (q * p);
    ModUnique(n, 2 * p, q, n % 2 + 2 * r);
  }

  /** Masking with k ones keeps the k low bits. */
  lemma {:induction false} MaskIsMod(n: nat, k: nat)
    ensures And(n, Pow2(k) - 1) == n % Pow2(k)
  {
    if k == 0 {
    } else if n != 0 {
      assert (Pow2(k) - 1) / 2 == Pow2(k - 1) - 1 && (Pow2(k) - 1) % 2 == 1;
      if k == 1 {
        assert And(n / 2, 0) == 0;
      }
      MaskIsMod(n / 2, k - 1);
      HalfOfMod(n, k - 1);
    }
  }

  /** Or-ing a number of k bits into k zero bits is addition. */
  lemma {:induction false} OrIsAdd(hi: nat, lo: nat, k: nat)
    requires lo < Pow2(k)
    ensures Or(hi * Pow2(k), lo) == hi * Pow2(k) + lo
  {
    if k == 0 || hi == 0 || lo == 0 {
    } else {
      var a := hi * Pow2(k);
      assert a == 2 * (hi * Pow2(k - 1));
      assert a != 0;
      OrIsAdd(hi, lo / 2, k - 1);
    }
  }

  lemma MaskByte(n: nat)
    ensures And(n, 0xFF) == n % 0x100
  {
    var k := 8;
    assert Pow2(k) == 0x100;
    MaskIsMod(n, k);
  }

  lemma {:induction false} ShiftRightDivides(n: nat, k: nat)
    ensures ShiftRight(n, k) == n / Pow2(k)
    decreases k
  {
    if k > 0 {
      ShiftRightDivides(n / 2, k - 1);
      HalfOfQuotient(n, Pow2(k - 1));
    }
  }

  lemma HalfOfQuotient(n: nat, p: nat)
    requires p > 0
    ensures n / (2 * p) == n / 2 / p
  {
    var q, r := (n / 2) / p, (n / 2) % p;
    assert n / 2 == q * p + r;
    assert q * (2 * p) == 2 * (q * p);
    ModUnique(n, 2 * p, q, n % 2 + 2 * r);
  }

  lemma {:induction false} MultipleGrows(n: nat, p: nat)
    requires p > 0
    ensures n <= n * p
  {
    if p > 1 {
      MultipleGrows(n, p - 1);
      assert n * p == n * (p - 1) + n;
    }
  }

  lemma DoubleFirst(n: nat, p: nat)
    requires p > 0
    ensures (2 * n) * p == n * (2 * p) && 2 * n <= n * (2 * p)
  {
    MultipleGrows(n, p);
    assert n * (2 * p) == 2 * (n * p);
  }

  lemma {:induction false} ShiftLeftMultiplies(n: nat, k: nat, product: nat)
    requires product == n * Pow2(k) && product < 0x1_0000_0000
    ensures ShiftLeft(n, k) == product
    decreases k
  {
    if k > 0 {
      DoubleFirst(n, Pow2(k - 1));
      ShiftLeftMultiplies(2 * n, k - 1, product);
      assert (2 * n) % 0x1_0000_0000 == 2 * n;
    }
  }

  lemma ShiftsByEight(n: nat)
    ensures ShiftRight(n, 8) == n / 0x100
    ensures n < 0x100 ==> ShiftLeft(n, 8) == n * 0x100
  {
    var k := 8;
    assert Pow2(k) == 0x100;
    ShiftRightDivides(n, k);
    if n < 0x100 {
      ShiftLeftMultiplies(n, k, n * 0x100);
    }
  }

  // ----- the browser's functions

  lemma HighByteIsQuotient(n: nat)
    requires n <= MAX_ID
    ensures And(ShiftRight(n, 8), 0xFF) == n / 0x100
  {
    ShiftsByEight(n);
    ByteIsMasked(n / 0x100);
  }

  lemma SmallRemainder(n: nat, m: nat)
    requires n < m
    ensures n % m == n
  {
  }

  lemma ByteIsMasked(n: nat)
    requires n < 0x100
    ensures And(n, 0xFF) == n
  {
    MaskByte(n);
    SmallRemainder(n, 0x100);
  }

  function HighByte(n: nat): (b: byte)
    requires n <= MAX_ID
    ensures b as int == n / 0x100
  {
    HighByteIsQuotient(n);
    And(ShiftRight(n, 8), 0xFF) as byte
  }

  function LowByte(n: nat): (b: byte)
    requires n <= MAX_ID
    ensures b as int == n % 0x100
  {
    MaskByte(n);
    And(n, 0xFF) as byte
  }

  function Length(hi: byte, lo: byte): (n: nat)
    ensures n == Uint16(hi, lo)
  {
    ShiftsByEight(hi as int);
    assert Pow2(8) == 0x100;
    OrIsAdd(hi as int, lo as int, 8);
    Or(ShiftLeft(hi as int, 8), lo as int)
  }

  method EncodeFrame(session: Bytes, payload: Bytes) returns (r: Encoded)
    ensures r == Encode(session, payload)
  {
    if |session| == 0 {
      return Err(SessionIdRequired);
    }
    if |session| > 0xFFFF {
      return Err(SessionIdTooLong);
    }
    var out := new byte[2 + |session| + |payload|](_ => 0);
    out[0] := HighByte(|session|);
    out[1] := LowByte(|session|);
    assert out[..2] == PutUint16(|session|);
    Copy(out, 2, session);
    assert out[..2 + |session|] == PutUint16(|session|) + session;
    Copy(out, 2 + |session|, payload);
    assert out[..] == PutUint16(|session|) + session + payload;
    return Ok(out[..]);
  }

  function DecodeFrame(data: Bytes): Decoded {
    if |data| < 2 then Err(FrameTooShort)
    else
      var n := Length(data[0], data[1]);
      if |data| < 2 + n then Err(MissingSessionId)
      else
        var session, payload := data[2..2 + n], data[2 + n..];
        if |session| == 0 then Err(SessionIdRequired) else Ok(Frame(session, payload))
  }

  lemma SameDecoder(data: Bytes)
    ensures DecodeFrame(data) == Decode(data)
  {
  }

  /** Every message means the same to the browser as to the hub and the agent, errors included, so
      the browser's decoder inverts the shared encoding in both directions. */
  lemma BrowserDecodesLikeHub(data: Bytes, session: Bytes, payload: Bytes)
    ensures DecodeFrame(data) == Decode(data)
    ensures DecodeFrame(data) == Ok(Frame(session, payload)) <==> Encode(session, payload) == Ok(data)
  {
    SameDecoder(data);
    CodecIsBijection(data, session, payload);
  }
}
