/**
  Decimal text of integers as Rust renders it (`Display` for the primitive
  integers) and reads it back (`FromStr`, i.e. `str::parse::<iN>()`).
  `FromStr` accepts an optional leading `+` (and `-` for signed types) and
  any number of leading zeros; it rejects the empty string, a lone sign,
  any other character and every value outside the type's range.
*/
module Decimal {
  import opened Wrappers
  import opened RustStd

  predicate IsDigit(c: char) {
    '0' <= c <= '9'
  }

  predicate AllDigits(s: string) {
    forall i :: 0 <= i < |s| ==> IsDigit(s[i])
  }

  function DigitChar(d: nat): (c: char)
    requires d < 10
    ensures IsDigit(c) && c as int - '0' as int == d
  {
    ('0' as int + d) as char
  }

  /** `Display` of a non-negative integer: no sign, no leading zeros. */
  function NatToString(n: nat): (s: string)
    ensures |s| > 0 && AllDigits(s)
  {
    if n < 10 then [DigitChar(n)] else NatToString(n / 10) + [DigitChar(n % 10)]
  }

  /** `Display` of an integer: a `-` for negative values, then the digits. */
  function IntToString(x: int): (s: string)
    ensures |s| > 0
  {
    if x < 0 then "-" + NatToString(-x) else NatToString(x)
  }

  /** The value of a run of decimal digits. */
  function DigitsValue(s: string): nat
    requires AllDigits(s)
  {
    if s == [] then 0 else DigitsValue(s[..|s| - 1]) * 10 + (s[|s| - 1] as int - '0' as int)
  }

  function ParseDigits(s: string): Option<nat>
  {
    if s != [] && AllDigits(s) then Some(DigitsValue(s)) else None
  }

  /** `FromStr` for a primitive integer type, before the range check. */
  function ParseDecimal(s: string, signed: bool): Option<int>
  {
    if s == [] then None
    else if s[0] == '+' then ParseDigits(s[1..])
    else if s[0] == '-' && signed then
      match ParseDigits(s[1..])
      case Some(v) => Some(0 - v as int)
      case None => None
    else ParseDigits(s)
  }

  /** `str::parse::<i32>()`. */
  function ParseI32(s: string): (r: Option<i32>)
  {
    match ParseDecimal(s, true)
    case Some(v) => if -0x8000_0000 <= v < 0x8000_0000 then Some(v) else None
    case None => None
  }

  /** `str::parse::<u32>()`. */
  function ParseU32(s: string): (r: Option<u32>)
  {
    match ParseDecimal(s, false)
    case Some(v) => if 0 <= v < 0x1_0000_0000 then Some(v) else None
    case None => None
  }

  /** `str::parse::<u64>()`. */
  function ParseU64(s: string): (r: Option<u64>)
  {
    match ParseDecimal(s, false)
    case Some(v) => if 0 <= v < 0x1_0000_0000_0000_0000 then Some(v) else None
    case None => None
  }

  lemma {:induction false} DigitsValueOfNatToString(n: nat)
    ensures DigitsValue(NatToString(n)) == n
  {
    if n >= 10 {
      var s := NatToString(n);
      assert s == NatToString(n / 10) + [DigitChar(n % 10)];
      assert s[..|s| - 1] == NatToString(n / 10);
      DigitsValueOfNatToString(n / 10);
    }
  }

  /** Reading back what `Display` printed gives the same value (signed types). */
  lemma SignedRoundTrip(x: int)
    ensures ParseDecimal(IntToString(x), true) == Some(x)
  {
    if x < 0 {
      var s := IntToString(x);
      assert s[1..] == NatToString(-x);
      DigitsValueOfNatToString(-x);
    } else {
      DigitsValueOfNatToString(x);
    }
  }

  /** Reading back what `Display` printed gives the same value (unsigned types). */
  lemma UnsignedRoundTrip(n: nat)
    ensures ParseDecimal(NatToString(n), false) == Some(n)
  {
    DigitsValueOfNatToString(n);
  }

  lemma I32RoundTrip(x: i32)
    ensures ParseI32(IntToString(x)) == Some(x)
  {
    SignedRoundTrip(x);
  }

  lemma U32RoundTrip(x: u32)
    ensures ParseU32(NatToString(x)) == Some(x)
  {
    UnsignedRoundTrip(x);
  }

  lemma U64RoundTrip(x: u64)
    ensures ParseU64(NatToString(x)) == Some(x)
  {
    UnsignedRoundTrip(x);
  }

  /** Distinct integers print differently. */
  lemma IntToStringInjective(x: int, y: int)
    requires IntToString(x) == IntToString(y)
    ensures x == y
  {
    SignedRoundTrip(x);
    SignedRoundTrip(y);
  }

  /** Printed integers contain only digits and possibly a leading `-`. */
  lemma IntToStringHasNoColon(x: int)
    ensures ':' !in IntToString(x)
  {
    var s := IntToString(x);
    if x < 0 {
      assert forall i :: 1 <= i < |s| ==> s[i] == NatToString(-x)[i - 1];
    }
  }

  /** Printed integers are ASCII: digits and possibly a leading `-`. */
  lemma IntToStringAscii(x: int)
    ensures forall i :: 0 <= i < |IntToString(x)| ==> IntToString(x)[i] < '\U{0080}'
  {
    var s := IntToString(x);
    if x < 0 {
      assert forall i :: 1 <= i < |s| ==> s[i] == NatToString(-x)[i - 1];
    }
  }
}
