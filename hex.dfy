/**
  `hex::decode` and `hex::encode`: two hex digits per byte, high nibble
  first. Decoding accepts upper- and lower-case digits and fails on an odd
  length or on any other character; encoding writes lower case.
*/
module Hex {
  import opened Wrappers
  import opened RustStd

  /** The value of one hex digit, if `c` is one. */
  function DigitValue(c: char): (r: Option<nat>)
    ensures r.Some? ==> r.value < 16
  {
    if '0' <= c <= '9' then Some(c as int - '0' as int)
    else if 'a' <= c <= 'f' then Some(c as int - 'a' as int + 10)
    else if 'A' <= c <= 'F' then Some(c as int - 'A' as int + 10)
    else None
  }

  /** The lower-case digit for a nibble. */
  function NibbleChar(n: nat): (c: char)
    requires n < 16
    ensures DigitValue(c) == Some(n)
  {
    if n < 10 then ('0' as int + n) as char else ('a' as int + n - 10) as char
  }

  function Encode(b: seq<byte>): (s: string)
    ensures |s| == 2 * |b|
  {
    if b == [] then [] else [NibbleChar(b[0] / 16), NibbleChar(b[0] % 16)] + Encode(b[1..])
  }

  function DecodePairs(s: string): (r: Option<seq<byte>>)
    requires |s| % 2 == 0
    ensures r.Some? ==> |r.value| == |s| / 2
  {
    if s == [] then Some([])
    else
      var hi, lo, rest := DigitValue(s[0]), DigitValue(s[1]), DecodePairs(s[2..]);
      if hi.Some? && lo.Some? && rest.Some? then Some([hi.value * 16 + lo.value] + rest.value)
      else None
  }

  function Decode(s: string): (r: Option<seq<byte>>)
    ensures r.Some? ==> |s| == 2 * |r.value|
  {
    if |s| % 2 == 1 then None else DecodePairs(s)
  }

  /** Decoding what was encoded gives the bytes back. */
  lemma {:induction false} DecodeEncode(b: seq<byte>)
    ensures Decode(Encode(b)) == Some(b)
  {
    if b != [] {
      var s := Encode(b);
      assert s[2..] == Encode(b[1..]);
      DecodeEncode(b[1..]);
      assert b == [b[0] / 16 * 16 + b[0] % 16] + b[1..];
    }
  }

  /** A string of odd length is never hex. */
  lemma OddLengthRejected(s: string)
    requires |s| % 2 == 1
    ensures Decode(s) == None
  {
  }

  /** ASCII lower-casing of one character. */
  function LowerAscii(c: char): char
  {
    if 'A' <= c <= 'Z' then (c as int + 32) as char else c
  }

  /** ASCII lower-casing of a text. */
  function Lowered(s: string): (t: string)
    ensures |t| == |s|
  {
    if s == [] then [] else [LowerAscii(s[0])] + Lowered(s[1..])
  }

  /** Decoding ignores case: a text and its lower-cased form decode alike, or fail alike. */
  lemma DecodeIgnoresCase(s: string)
    ensures Decode(Lowered(s)) == Decode(s)
  {
    if |s| % 2 == 0 {
      DecodePairsIgnoresCase(s);
    }
  }

  lemma {:induction false} DecodePairsIgnoresCase(s: string)
    requires |s| % 2 == 0
    ensures DecodePairs(Lowered(s)) == DecodePairs(s)
  {
    if s != [] {
      var t := Lowered(s);
      assert t[1..] == Lowered(s[1..]);
      assert t[2..] == Lowered(s[2..]) by {
        assert Lowered(s[1..])[1..] == Lowered(s[1..][1..]);
        assert s[1..][1..] == s[2..];
      }
      DecodePairsIgnoresCase(s[2..]);
    }
  }

  /** An example: upper-case digits decode like lower-case ones. */
  lemma UpperCaseAccepted()
    ensures Decode("FF0a") == Some([255, 10])
  {
    var s, t := "FF0a", "0a";
    assert s != [] && s[0] == 'F' && s[1] == 'F' && s[2..] == t;
    assert t != [] && t[0] == '0' && t[1] == 'a' && t[2..] == [];
    assert DecodePairs(t).value == [10];
    assert DecodePairs(s).value == [255, 10];
  }
}
