/**
 Decimal rendering of integers: optional minus sign, then digits without
 leading zeros. This is how the host renders an integral number inside a
 template string up to magnitude 2^53; beyond that the host prints the
 shortest digits that round-trip its double, and from 10^21 it uses exponent
 notation. `ParseInt` is its inverse on canonical renderings.
 */
module Decimal {
  import opened Optional

  predicate IsDigit(c: char) {
    '0' <= c <= '9'
  }

  function DigitValue(c: char): (d: nat)
    requires IsDigit(c)
    ensures d < 10
  {
    c as int - '0' as int
  }

  function DigitChar(d: nat): (c: char)
    requires d < 10
    ensures IsDigit(c) && DigitValue(c) == d
  {
    ('0' as int + d) as char
  }

  predicate AllDigits(s: string) {
    forall i :: 0 <= i < |s| ==> IsDigit(s[i])
  }

  /** A non-empty digit string with no leading zero (except "0" itself). */
  predicate IsCanonical(s: string) {
    |s| >= 1 && AllDigits(s) && (s[0] == '0' ==> |s| == 1)
  }

  /** A canonical natural rendering, or a minus sign followed by a canonical non-zero one. */
  predicate IsCanonicalInt(s: string) {
    IsCanonical(s) || (|s| >= 2 && s[0] == '-' && IsCanonical(s[1..]) && s[1] != '0')
  }

  /** The value of a digit string, most significant digit first. */
  function DigitsValue(s: string): nat
    requires AllDigits(s)
    decreases |s|
  {
    if s == [] then 0 else 10 * DigitsValue(s[..|s| - 1]) + DigitValue(s[|s| - 1])
  }

  function IntValue(s: string): int
    requires IsCanonicalInt(s)
  {
    if s[0] == '-' then 0 - DigitsValue(s[1..]) as int else DigitsValue(s)
  }

  /** The canonical decimal rendering of `n`. */
  function NatToDecimal(n: nat): (s: string)
    ensures IsCanonical(s)
    ensures DigitsValue(s) == n
    decreases n
  {
    if n < 10 then
      [DigitChar(n)]
    else
      var p := NatToDecimal(n / 10);
      var s := p + [DigitChar(n % 10)];
      assert s[..|s| - 1] == p;
      s
  }

  /** The canonical decimal rendering of `i`, with a leading '-' when negative. */
  function IntToDecimal(i: int): (s: string)
    ensures IsCanonicalInt(s)
    ensures IntValue(s) == i
  {
    if i < 0 then
      var d := NatToDecimal(-i);
      var s := "-" + d;
      assert s[1..] == d;
      s
    else
      NatToDecimal(i)
  }

  /** Parses a canonical integer rendering; anything else is rejected. */
  function ParseInt(s: string): (r: Maybe<int>)
    ensures r.Present? <==> IsCanonicalInt(s)
    ensures r.Present? ==> IntToDecimal(r.value) == s
  {
    if IsCanonicalInt(s) then
      CanonicalIntUnique(s);
      Present(IntValue(s))
    else
      Absent
  }

  /** A canonical digit string starting with a non-zero digit has a positive value. */
  lemma {:induction false} LeadingNonZeroPositive(s: string)
    requires AllDigits(s) && |s| >= 1 && s[0] != '0'
    ensures DigitsValue(s) > 0
    decreases |s|
  {
    if |s| == 1 {
      assert s[..|s| - 1] == [];
    } else {
      var p := s[..|s| - 1];
      assert p[0] == s[0];
      LeadingNonZeroPositive(p);
    }
  }

  /** Uniqueness: the only canonical digit string of value `DigitsValue(s)` is its rendering. */
  lemma {:induction false} CanonicalUnique(s: string)
    requires IsCanonical(s)
    ensures s == NatToDecimal(DigitsValue(s))
    decreases |s|
  {
    var n := DigitsValue(s);
    if |s| == 1 {
      assert s[..|s| - 1] == [];
      assert DigitsValue(s[..|s| - 1]) == 0;
      assert s == [DigitChar(n)];
    } else {
      var p := s[..|s| - 1];
      assert p[0] == s[0];
      LeadingNonZeroPositive(p);
      CanonicalUnique(p);
      assert n / 10 == DigitsValue(p);
      assert n % 10 == DigitValue(s[|s| - 1]);
      assert s == p + [s[|s| - 1]];
    }
  }

  /** Uniqueness for signed renderings: a canonical integer string is the rendering of its value. */
  lemma CanonicalIntUnique(s: string)
    requires IsCanonicalInt(s)
    ensures s == IntToDecimal(IntValue(s))
  {
    if s[0] == '-' {
      var d := s[1..];
      CanonicalUnique(d);
      LeadingNonZeroPositive(d);
      assert s == "-" + d;
    } else {
      CanonicalUnique(s);
    }
  }

  /** The rendering of a three-digit number, digit by digit. */
  lemma ThreeDigits(n: nat)
    requires 100 <= n < 1000
    ensures IntToDecimal(n) == [DigitChar(n / 100), DigitChar(n / 10 % 10), DigitChar(n % 10)]
  {
    assert NatToDecimal(n / 100) == [DigitChar(n / 100)];
    assert NatToDecimal(n / 10) == [DigitChar(n / 100), DigitChar(n / 10 % 10)];
  }

  /** Distinct integers have distinct renderings. */
  lemma IntToDecimalInjective(i: int, j: int)
    ensures IntToDecimal(i) == IntToDecimal(j) <==> i == j
  {
  }
}
