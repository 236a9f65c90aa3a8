/**
 * Decimal text of Rust integers: what `{}` writes for a `usize` or an `i64`,
 * and what `str::parse::<usize>()` and `str::parse::<i64>()` accept.
 */
module Decimal {
  import opened Wrappers

  const I64Min: int := -0x8000_0000_0000_0000
  const I64Max: int := 0x7FFF_FFFF_FFFF_FFFF
  const UsizeMax: int := 0xFFFF_FFFF_FFFF_FFFF

  /** Rust's `i64`. */
  type i64 = x: int | I64Min <= x <= I64Max

  predicate IsDigit(c: char) {
    '0' <= c <= '9'
  }

  predicate AllDigits(s: string) {
    forall k :: 0 <= k < |s| ==> IsDigit(s[k])
  }

  function DigitValue(c: char): nat
    requires IsDigit(c)
  {
    c as int - '0' as int
  }

  function DigitChar(d: nat): (c: char)
    requires d < 10
    ensures IsDigit(c) && DigitValue(c) == d
  {
    ('0' as int + d) as char
  }

  /** The value of a string of decimal digits, most significant digit first. */
  function DigitsValue(s: string): nat
    requires AllDigits(s)
  {
    if s == [] then 0 else DigitsValue(s[..|s| - 1]) * 10 + DigitValue(s[|s| - 1])
  }

  /** `{}` of an unsigned integer: its digits, no sign, no leading zero. */
  function NatToString(n: nat): (r: string)
    ensures |r| > 0 && AllDigits(r)
    ensures r[0] == '0' ==> n == 0
  {
    if n < 10 then [DigitChar(n)] else NatToString(n / 10) + [DigitChar(n % 10)]
  }

  /** `{}` of a signed integer: a minus sign for negative values, then the digits. */
  function IntToString(i: int): string {
    if i < 0 then "-" + NatToString(-i) else NatToString(i)
  }

  /**
   * Rust's `from_str_radix(s, 10)` for an integer type with bounds lo..hi:
   * an optional '+' (or '-' when the type is signed), then at least one
   * digit and nothing else, and a value within the bounds.
   */
  function ParseDecimal(s: string, signed: bool, lo: int, hi: int): Option<int> {
    if s == [] then None
    else
      var negative := signed && s[0] == '-';
      var digits := if s[0] == '+' || negative then s[1..] else s;
      if digits == [] || !AllDigits(digits) then None
      else
        var v: int := if negative then -(DigitsValue(digits) as int) else DigitsValue(digits);
        if lo <= v <= hi then Some(v) else None
  }

  /** `str::parse::<usize>()`. */
  function ParseUsize(s: string): (r: Option<nat>)
    ensures r.Some? ==> r.value <= UsizeMax
  {
    match ParseDecimal(s, false, 0, UsizeMax)
    case Some(v) => Some(v)
    case None => None
  }

  /** `str::parse::<i64>()`. */
  function ParseI64(s: string): (r: Option<i64>)
  {
    match ParseDecimal(s, true, I64Min, I64Max)
    case Some(v) => Some(v)
    case None => None
  }

  lemma {:induction false} NatToStringValue(n: nat)
    ensures DigitsValue(NatToString(n)) == n
  {
    var s := NatToString(n);
    if n >= 10 {
      NatToStringValue(n / 10);
      assert s[..|s| - 1] == NatToString(n / 10);
    }
  }

  /** Parsing what `{}` wrote for a `usize` gives the number back. */
  lemma ParseUsizeOfString(n: nat)
    requires n <= UsizeMax
    ensures ParseUsize(NatToString(n)) == Some(n)
  {
    NatToStringValue(n);
  }

  /** Parsing what `{}` wrote for an `i64` gives the number back. */
  lemma ParseI64OfString(i: i64)
    ensures ParseI64(IntToString(i)) == Some(i)
  {
    if i < 0 {
      var m: nat := -(i as int);
      NatToStringValue(m);
      assert ("-" + NatToString(m))[1..] == NatToString(m);
    } else {
      NatToStringValue(i);
    }
  }

  /** The text of an integer never holds a carriage return. */
  lemma IntToStringHasNoCr(i: int)
    ensures forall k :: 0 <= k < |IntToString(i)| ==> IntToString(i)[k] != '\r'
  {
    var d := NatToString(if i < 0 then -i else i);
    assert forall k :: 0 <= k < |d| ==> IsDigit(d[k]);
  }

  /** A length field parses only when it is non-empty, all digits and fits a `usize`. */
  lemma ParseUsizeOfDigits(s: string)
    requires AllDigits(s)
    ensures ParseUsize(s).Some? <==> s != [] && DigitsValue(s) <= UsizeMax
    ensures ParseUsize(s).Some? ==> ParseUsize(s).value == DigitsValue(s)
  {
  }
}
