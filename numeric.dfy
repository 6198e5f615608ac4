/**
 * Integer helpers shared by the drivers: the 64- and 32-bit bounds, C/Rust/Go/Java
 * integer division (which truncates toward zero), the C library's `strtoll`, and the
 * strict decimal parse of Rust's `str::parse::<i64>` and Java's `Integer.parseInt`.
 */
module Numeric {
  import opened Wrappers

  const INT64_MIN: int := -0x8000_0000_0000_0000
  const INT64_MAX: int := 0x7FFF_FFFF_FFFF_FFFF
  const INT32_MIN: int := -0x8000_0000
  const INT32_MAX: int := 0x7FFF_FFFF
  const UINT32_MAX: int := 0xFFFF_FFFF

  function Abs(x: int): (r: nat)
    ensures r == x || r == -x
  {
    if x < 0 then -x else x
  }

  /** The larger argument (`std::max`, `std::cmp::max`, Go's local `max`). */
  function Max(a: int, b: int): (r: int)
    ensures r >= a && r >= b
    ensures r == a || r == b
  {
    if a > b then a else b
  }

  /** The smaller argument (`std::min`, `std::cmp::min`, `Math.min`, Go's `min`). */
  function Min(a: int, b: int): (r: int)
    ensures r <= a && r <= b
    ensures r == a || r == b
  {
    if a < b then a else b
  }

  /**
   * Integer division as C, C++, Rust, Go and Java define it: the quotient is
   * truncated toward zero, so the remainder has the sign of the dividend.
   */
  function TruncDiv(a: int, b: int): (q: int)
    requires b != 0
    ensures a >= 0 ==> 0 <= a - q * b < Abs(b)
    ensures a < 0 ==> -(Abs(b) as int) < a - q * b <= 0
    ensures a >= 0 && b > 0 ==> q == a / b
  {
    if a >= 0 then
      (if b > 0 then a / b else -(a / -b))
    else
      (if b > 0 then -((-a) / b) else (-a) / (-b))
  }

  predicate IsDigit(c: char) {
    '0' <= c <= '9'
  }

  /** The characters `isspace` accepts in the "C" locale. */
  predicate IsSpace(c: char) {
    c == ' ' || c == '\t' || c == '\n' || c == '\r' || c == '\U{B}' || c == '\U{C}'
  }

  predicate AllDigits(s: string) {
    forall i :: 0 <= i < |s| ==> IsDigit(s[i])
  }

  function DigitChar(d: nat): (c: char)
    requires d < 10
    ensures IsDigit(c) && c as int - '0' as int == d
  {
    ('0' as int + d) as char
  }

  /** The value of a string of decimal digits, most significant first. */
  function DigitsValue(ds: string): (v: nat)
    requires AllDigits(ds)
  {
    if |ds| == 0 then 0
    else DigitsValue(ds[..|ds| - 1]) * 10 + (ds[|ds| - 1] as int - '0' as int)
  }

  /** The canonical decimal spelling of a natural number. */
  function NatToString(n: nat): (s: string)
    ensures |s| > 0 && AllDigits(s)
  {
    if n < 10 then [DigitChar(n)] else NatToString(n / 10) + [DigitChar(n % 10)]
  }

  /** The canonical decimal spelling of an integer, with a leading '-' when negative. */
  function IntToString(n: int): (s: string)
    ensures |s| > 0
  {
    if n < 0 then "-" + NatToString(-n) else NatToString(n)
  }

  lemma {:induction false} NatToStringValue(n: nat)
    ensures DigitsValue(NatToString(n)) == n
  {
    if n >= 10 {
      var s := NatToString(n);
      assert s[..|s| - 1] == NatToString(n / 10);
      NatToStringValue(n / 10);
    }
  }

  /** The longest prefix of `s` made of decimal digits. */
  function DigitPrefix(s: string): (p: string)
    ensures AllDigits(p) && |p| <= |s| && p == s[..|p|]
    ensures |p| < |s| ==> !IsDigit(s[|p|])
  {
    if |s| == 0 || !IsDigit(s[0]) then [] else [s[0]] + DigitPrefix(s[1..])
  }

  function SkipSpace(s: string): (t: string)
    ensures |t| <= |s| && t == s[|s| - |t|..]
    ensures |t| > 0 ==> !IsSpace(t[0])
  {
    if |s| > 0 && IsSpace(s[0]) then SkipSpace(s[1..]) else s
  }

  function Clamp64(v: int): (r: int)
    ensures INT64_MIN <= r <= INT64_MAX
    ensures INT64_MIN <= v <= INT64_MAX ==> r == v
  {
    if v > INT64_MAX then INT64_MAX else if v < INT64_MIN then INT64_MIN else v
  }

  /**
   * `std::strtoll(s, nullptr, 10)`: leading white space is skipped, an optional sign is
   * read, then the longest run of digits; no digits gives 0 and a value out of range
   * saturates at the int64 bounds. Trailing characters are ignored.
   */
  function StrToLL(s: string): (r: int)
    ensures INT64_MIN <= r <= INT64_MAX
  {
    var t := SkipSpace(s);
    var signed := |t| > 0 && (t[0] == '-' || t[0] == '+');
    var negative := signed && t[0] == '-';
    var digits := DigitPrefix(if signed then t[1..] else t);
    var v := DigitsValue(digits);
    Clamp64(if negative then -(v as int) else v)
  }

  lemma {:induction false} AllDigitsPrefix(s: string)
    requires AllDigits(s)
    ensures DigitPrefix(s) == s
  {
    if |s| > 0 {
      AllDigitsPrefix(s[1..]);
    }
  }

  /** strtoll reads back every int64 written in canonical decimal. */
  lemma StrToLLRoundTrip(n: int)
    requires INT64_MIN <= n <= INT64_MAX
    ensures StrToLL(IntToString(n)) == n
  {
    var m: nat := if n < 0 then -n else n;
    var digits := NatToString(m);
    AllDigitsPrefix(digits);
    NatToStringValue(m);
    var s := IntToString(n);
    assert SkipSpace(s) == s by { assert !IsSpace(s[0]); }
    if n < 0 {
      assert s[1..] == digits;
      assert DigitsValue(DigitPrefix(s[1..])) == m;
    } else {
      assert s == digits && s[0] != '-' && s[0] != '+';
      assert DigitsValue(DigitPrefix(s)) == m;
    }
  }

  /**
   * The strict parse of Rust's `str::parse::<i64>` (with lo, hi the i64 bounds) and of
   * Java's `Integer.parseInt` (the i32 bounds): an optional sign, then one or more
   * digits and nothing else, with a value in [lo, hi]; anything else is a parse error.
   */
  function ParseDecimal(s: string, lo: int, hi: int): (r: Option<int>)
    ensures r.Some? ==> lo <= r.value <= hi
  {
    var signed := |s| > 0 && (s[0] == '-' || s[0] == '+');
    var body := if signed then s[1..] else s;
    if |body| == 0 || !AllDigits(body) then None
    else
      var v := if signed && s[0] == '-' then -(DigitsValue(body) as int) else DigitsValue(body);
      if lo <= v <= hi then Some(v) else None
  }

  /** The strict parse accepts every canonical decimal in range and reads back its value. */
  lemma ParseDecimalRoundTrip(n: int, lo: int, hi: int)
    requires lo <= n <= hi
    ensures ParseDecimal(IntToString(n), lo, hi) == Some(n)
  {
    var m: nat := if n < 0 then -n else n;
    NatToStringValue(m);
    if n < 0 {
      assert ("-" + NatToString(m))[1..] == NatToString(m);
    }
  }

  /** A canonical decimal outside [lo, hi] is rejected by the strict parse. */
  lemma ParseDecimalOutOfRange(n: int, lo: int, hi: int)
    requires n < lo || n > hi
    ensures ParseDecimal(IntToString(n), lo, hi) == None
  {
    var m: nat := if n < 0 then -n else n;
    NatToStringValue(m);
    if n < 0 {
      assert ("-" + NatToString(m))[1..] == NatToString(m);
    }
  }

  /** Text that is not a number at all is rejected by the strict parse, but reads as 0 for strtoll. */
  lemma NonNumericText(s: string)
    requires |s| > 0 && !IsDigit(s[0]) && !IsSpace(s[0]) && s[0] != '-' && s[0] != '+'
    ensures ParseDecimal(s, INT64_MIN, INT64_MAX) == None
    ensures StrToLL(s) == 0
  {
    assert !AllDigits(s) by { assert !IsDigit(s[0]); }
  }
}
