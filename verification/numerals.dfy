/**
  Decimal numerals as JavaScript's template literals print them.

  Every number the favicon markup contains is an integer or half an integer
  (`size / 2` with an integer `size`), so a coordinate is represented here in
  HALF-UNITS: the integer `h` stands for the number `h / 2`. `HalfToString`
  prints such a number the way `Number.prototype.toString` does for values of
  this magnitude, and `ReadHalf` reads it back; the round-trip lemmas show
  that the printed numeral determines the number.
*/
module Numerals {
  import opened Wrappers

  predicate IsDigit(c: char) {
    '0' <= c <= '9'
  }

  predicate AllDigits(s: string) {
    forall i :: 0 <= i < |s| ==> IsDigit(s[i])
  }

  /** A run of digits ends where `t` begins when `t` does not start with a digit. */
  predicate DigitsEnd(t: string) {
    |t| == 0 || !IsDigit(t[0])
  }

  /** A printed coordinate ends where `t` begins when `t` cannot continue it. */
  predicate Delimited(t: string) {
    DigitsEnd(t) && (|t| == 0 || t[0] != '.')
  }

  function DigitChar(d: nat): (c: char)
    requires d < 10
    ensures IsDigit(c)
    ensures DigitValue(c) == d
  {
    ('0' as int + d) as char
  }

  function DigitValue(c: char): (d: nat)
    requires IsDigit(c)
    ensures d < 10
  {
    c as int - '0' as int
  }

  /** The decimal numeral of `n`, without leading zeros. */
  function NatToString(n: nat): (s: string)
    ensures |s| >= 1
    ensures AllDigits(s)
    ensures s[0] == '0' ==> n == 0
    decreases n
  {
    if n < 10 then [DigitChar(n)] else NatToString(n / 10) + [DigitChar(n % 10)]
  }

  /** The value of a string of decimal digits. */
  function DigitsValue(s: string): nat
    requires AllDigits(s)
  {
    if |s| == 0 then 0 else DigitsValue(s[..|s| - 1]) * 10 + DigitValue(s[|s| - 1])
  }

  lemma {:induction false} NatToStringValue(n: nat)
    ensures DigitsValue(NatToString(n)) == n
    decreases n
  {
    if n >= 10 {
      NatToStringValue(n / 10);
      var s := NatToString(n);
      assert s[..|s| - 1] == NatToString(n / 10);
    }
  }

  /** Two naturals print the same numeral only if they are equal. */
  lemma NatToStringInjective(a: nat, b: nat)
    requires NatToString(a) == NatToString(b)
    ensures a == b
  {
    NatToStringValue(a);
    NatToStringValue(b);
  }

  /**
    The number `h / 2`, printed as JavaScript prints it: a minus sign
    exactly for negative numbers, and a `.5` ending exactly for halves.
  */
  function HalfToString(h: int): (s: string)
    ensures |s| >= 1
    ensures s[0] == '-' <==> h < 0
    ensures HasHalfEnding(s) <==> h % 2 == 1
  {
    if h < 0 then "-" + UnsignedHalfToString(-h) else UnsignedHalfToString(h)
  }

  /** The numeral ends in `.5`. */
  predicate HasHalfEnding(s: string) {
    |s| >= 2 && s[|s| - 2] == '.' && s[|s| - 1] == '5'
  }

  function UnsignedHalfToString(h: nat): (s: string)
    ensures |s| >= 1 && IsDigit(s[0])
    ensures HasHalfEnding(s) <==> h % 2 == 1
  {
    var n := NatToString(h / 2);
    if h % 2 == 1 then n + ".5"
    else
      assert !HasHalfEnding(n) by {
        if |n| >= 2 {
          assert IsDigit(n[|n| - 2]);
        }
      }
      n
  }

  /** The length of the longest prefix of `s` made of digits. */
  function DigitRun(s: string): (k: nat)
    ensures k <= |s|
    ensures AllDigits(s[..k])
    ensures k < |s| ==> !IsDigit(s[k])
  {
    if |s| == 0 || !IsDigit(s[0]) then 0
    else
      var k := 1 + DigitRun(s[1..]);
      assert s[..k] == [s[0]] + s[1..][..k - 1];
      k
  }

  /** Reads a natural numeral at the front of `s`; the rest is returned. */
  function ReadNat(s: string): (r: Option<(nat, string)>)
    ensures r.Some? ==> |r.value.1| < |s|
    ensures r.Some? <==> |s| > 0 && IsDigit(s[0])
  {
    var k := DigitRun(s);
    if k == 0 then None else Some((DigitsValue(s[..k]), s[k..]))
  }

  /** Reads a number printed by `UnsignedHalfToString`. */
  function ReadUnsignedHalf(s: string): (r: Option<(nat, string)>)
    ensures r.Some? ==> |r.value.1| < |s|
  {
    var p :- ReadNat(s);
    var rest := p.1;
    if |rest| >= 2 && rest[0] == '.' && rest[1] == '5' then Some((2 * p.0 + 1, rest[2..]))
    else Some((2 * p.0, rest))
  }

  /** Reads a number printed by `HalfToString`, in half-units. */
  function ReadHalf(s: string): (r: Option<(int, string)>)
    ensures r.Some? ==> |r.value.1| < |s|
  {
    if |s| > 0 && s[0] == '-' then
      var p :- ReadUnsignedHalf(s[1..]);
      var h := -(p.0 as int);
      Some((h, p.1))
    else
      var p :- ReadUnsignedHalf(s);
      Some((p.0, p.1))
  }

  lemma {:induction false} DigitRunOfDigits(d: string, t: string)
    requires AllDigits(d)
    requires DigitsEnd(t)
    ensures DigitRun(d + t) == |d|
    decreases |d|
  {
    if |d| > 0 {
      assert (d + t)[1..] == d[1..] + t;
      DigitRunOfDigits(d[1..], t);
    }
  }

  lemma ReadNatRoundTrip(n: nat, t: string)
    requires DigitsEnd(t)
    ensures ReadNat(NatToString(n) + t) == Some((n, t))
  {
    var d := NatToString(n);
    DigitRunOfDigits(d, t);
    assert (d + t)[..|d|] == d;
    assert (d + t)[|d|..] == t;
    NatToStringValue(n);
  }

  lemma ReadUnsignedHalfRoundTrip(h: nat, t: string)
    requires Delimited(t)
    ensures ReadUnsignedHalf(UnsignedHalfToString(h) + t) == Some((h, t))
  {
    var d := NatToString(h / 2);
    if h % 2 == 1 {
      assert UnsignedHalfToString(h) + t == d + (".5" + t);
      ReadNatRoundTrip(h / 2, ".5" + t);
      assert (".5" + t)[2..] == t;
    } else {
      assert UnsignedHalfToString(h) + t == d + t;
      ReadNatRoundTrip(h / 2, t);
    }
  }

  /** Reading back a printed coordinate gives the coordinate and the rest. */
  lemma ReadHalfRoundTrip(h: int, t: string)
    requires Delimited(t)
    ensures ReadHalf(HalfToString(h) + t) == Some((h, t))
  {
    if h < 0 {
      ReadNegativeHalfRoundTrip(h, t);
    } else {
      ReadNonNegativeHalfRoundTrip(h, t);
    }
  }

  lemma ReadNegativeHalfRoundTrip(h: int, t: string)
    requires h < 0
    requires Delimited(t)
    ensures ReadHalf(HalfToString(h) + t) == Some((h, t))
  {
    var m: nat := -h;
    var u := UnsignedHalfToString(m) + t;
    assert HalfToString(h) + t == "-" + u;
    ReadUnsignedHalfRoundTrip(m, t);
    ReadHalfAfterMinus(u);
  }

  lemma ReadHalfAfterMinus(u: string)
    ensures ReadUnsignedHalf(u).Some? ==>
      ReadHalf("-" + u) == Some((-(ReadUnsignedHalf(u).value.0 as int), ReadUnsignedHalf(u).value.1))
  {
    assert ("-" + u)[1..] == u;
  }

  lemma ReadNonNegativeHalfRoundTrip(h: int, t: string)
    requires h >= 0
    requires Delimited(t)
    ensures ReadHalf(HalfToString(h) + t) == Some((h, t))
  {
    var s := HalfToString(h) + t;
    assert s[0] == NatToString(h / 2)[0];
    ReadUnsignedHalfRoundTrip(h, t);
  }
}
