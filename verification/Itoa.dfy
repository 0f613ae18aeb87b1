/** The decimal renderer of internal/devutil/ports.go: a loop that emits digits from the low end, and
    an in-place reversal of the buffer. */
module Itoa {
  import opened Wrappers

  const MIN_INT := -0x8000_0000_0000_0000
  type Int64 = v: int | MIN_INT <= v < 0x8000_0000_0000_0000

  /** Two's complement negation: the minimum is its own negative. */
  function Negate(v: Int64): Int64 {
    if v == MIN_INT then MIN_INT else -v
  }

  // ----- what a decimal numeral is

  function Digit(d: nat): char
    requires d < 10
  {
    '0' + d as char
  }

  predicate IsDigit(c: char) {
    '0' <= c <= '9'
  }

  function DigitValue(c: char): nat
    requires IsDigit(c)
  {
    c as int - '0' as int
  }

  /** The digits of n, most significant first; none for zero. */
  function Digits(n: nat): string {
    if n == 0 then "" else Digits(n / 10) + [Digit(n % 10)]
  }

  /** The text that `itoa` answers. */
  function Decimal(v: Int64): string {
    if v == 0 then "0"
    else if v == MIN_INT then "-"
    else if v < 0 then "-" + Digits(-v)
    else Digits(v)
  }

  /** Reading a numeral back: digits with at most one leading minus sign. */
  function ParseNat(s: string): Option<nat> {
    if s == "" then Some(0)
    else
      var last := s[|s| - 1];
      var front := ParseNat(s[..|s| - 1]);
      if front.Some? && IsDigit(last) then Some(10 * front.value + DigitValue(last)) else None
  }

  function Parse(s: string): Option<int> {
    if s == "" || s == "-" then None
    else if s[0] == '-' then
      match ParseNat(s[1..]) { case Some(n) => Some(0 - n as int) case None => None }
    else
      match ParseNat(s) { case Some(n) => Some(n) case None => None }
  }

  // ----- properties of the numerals

  lemma {:induction false} ParseOfDigits(n: nat)
    ensures ParseNat(Digits(n)) == Some(n)
    ensures n > 0 ==> Digits(n) != "" && Digits(n)[0] != '-' && Digits(n)[0] != '0'
  {
    if n > 0 {
      ParseOfDigits(n / 10);
      var s := Digits(n);
      assert s[..|s| - 1] == Digits(n / 10);
      assert DigitValue(Digit(n % 10)) == n % 10;
    }
  }

  /** The text reads back as the value for every machine integer except the minimum, whose text is a
      bare minus sign. */
  lemma DecimalReadsBack(v: Int64)
    ensures Parse(Decimal(v)) == Some(v) <==> v != MIN_INT
    ensures v == MIN_INT ==> Decimal(v) == "-"
  {
    if v == 0 {
      assert "0"[..0] == "";
      assert ParseNat("0") == Some(0);
    } else if v == MIN_INT {
    } else if v < 0 {
      ParseOfDigits(-v);
      assert ("-" + Digits(-v))[1..] == Digits(-v);
    } else {
      ParseOfDigits(v);
    }
  }

  /** Different integers, the minimum included, have different texts. */
  lemma DecimalIsInjective(v: Int64, w: Int64)
    requires Decimal(v) == Decimal(w)
    ensures v == w
  {
    DecimalReadsBack(v);
    DecimalReadsBack(w);
  }

  /** No text starts its digits with a zero, apart from that of zero itself. */
  lemma NoLeadingZero(v: Int64)
    requires v != 0
    ensures var s := Decimal(v); s[0] != '0' && (s[0] == '-' && |s| > 1 ==> s[1] != '0')
    ensures Decimal(v)[0] == '-' <==> v < 0
  {
    if v > 0 {
      ParseOfDigits(v);
    } else if v != MIN_INT {
      ParseOfDigits(-v);
    }
  }

  // ----- the code as written

  function Reversed(s: string): string {
    if s == "" then "" else Reversed(s[1..]) + [s[0]]
  }

  lemma {:induction false} ReversedAppend(s: string, c: char)
    ensures Reversed(s + [c]) == [c] + Reversed(s)
  {
    if s == "" {
      assert s + [c] == [c] && [c][1..] == "";
    } else {
      assert (s + [c])[1..] == s[1..] + [c];
      ReversedAppend(s[1..], c);
    }
  }

  lemma {:induction false} ReversedByIndex(s: string, t: string)
    requires |t| == |s|
    requires forall k :: 0 <= k < |s| ==> t[k] == s[|s| - 1 - k]
    ensures t == Reversed(s)
  {
    if s != "" {
      var n := |s|;
      var rest, front := s[1..], t[..n - 1];
      assert forall k :: 0 <= k < n - 1 ==> front[k] == rest[n - 2 - k];
      ReversedByIndex(rest, front);
      assert t == front + [t[n - 1]];
    }
  }

  method ReverseInPlace(buf: array<char>)
    modifies buf
    ensures buf[..] == Reversed(old(buf[..]))
  {
    ghost var was := buf[..];
    var i, j := 0, buf.Length - 1;
    while i < j
      invariant 0 <= i <= buf.Length && j == buf.Length - 1 - i && i <= j + 2
      invariant forall k :: 0 <= k < i ==> buf[k] == was[|was| - 1 - k]
      invariant forall k :: i <= k <= j ==> buf[k] == was[k]
      invariant forall k :: j < k < buf.Length && i <= k ==> buf[k] == was[|was| - 1 - k]
    {
      buf[i], buf[j] := buf[j], buf[i];
      i, j := i + 1, j - 1;
    }
    ReversedByIndex(was, buf[..]);
  }

  method Render(value: Int64) returns (s: string)
    ensures s == Decimal(value)
  {
    if value == 0 {
      return "0";
    }
    var v: Int64 := value;
    var neg := v < 0;
    if neg {
      v := Negate(v);
    }
    ghost var magnitude: nat := if v > 0 then v else 0;
    var digits := "";
    while v > 0
      invariant v >= 0 || magnitude == 0
      invariant v < 0 ==> digits == ""
      invariant magnitude > 0 ==> v >= 0 && Digits(v) + Reversed(digits) == Digits(magnitude)
      invariant magnitude == 0 ==> v < 0 && digits == ""
    {
      var c := Digit(v % 10);
      ReversedAppend(digits, c);
      assert Digits(v) + Reversed(digits) == Digits(v / 10) + ([c] + Reversed(digits));
      digits := digits + [c];
      v := v / 10;
    }
    assert magnitude > 0 ==> Digits(v) == "" && Reversed(digits) == Digits(magnitude);
    if neg {
      ReversedAppend(digits, '-');
      digits := digits + ['-'];
    }
    var buf := new char[|digits|](i requires 0 <= i < |digits| => digits[i]);
    assert buf[..] == digits;
    ReverseInPlace(buf);
    return buf[..];
  }
}
