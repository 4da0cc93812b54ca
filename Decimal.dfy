/** Decimal text of integers, as JavaScript's template literals and
    `toString()` write them, its inverse on digit strings, and
    `padStart(2, '0')`. */
module Decimal {

  predicate IsDigit(c: char) { '0' <= c <= '9' }

  predicate IsDigits(s: string) { forall i :: 0 <= i < |s| ==> IsDigit(s[i]) }

  function DigitChar(d: int): (c: char)
    requires 0 <= d < 10
    ensures IsDigit(c)
  {
    ('0' as int + d) as char
  }

  function DigitValue(c: char): (d: int)
    requires IsDigit(c)
    ensures 0 <= d < 10
  {
    c as int - '0' as int
  }

  /** `${n}` for a non-negative integer: its digits, most significant first,
      without leading zeros. */
  function NatToString(n: nat): (s: string)
    ensures |s| > 0 && IsDigits(s)
    ensures |s| == 1 || s[0] != '0'
  {
    if n < 10 then [DigitChar(n)] else NatToString(n / 10) + [DigitChar(n % 10)]
  }

  /** `${i}` for any integer: a minus sign before the digits of a negative one.
      The text reads back as the integer. */
  function IntToString(i: int): (s: string)
    ensures i >= 0 ==> |s| > 0 && IsDigits(s) && DigitsValue(s) == i
    ensures i < 0 ==> |s| > 1 && s[0] == '-' && IsDigits(s[1..]) && DigitsValue(s[1..]) == -i
  {
    if i < 0 then
      NatToStringRoundTrip(-i);
      assert ("-" + NatToString(-i))[1..] == NatToString(-i);
      "-" + NatToString(-i)
    else
      NatToStringRoundTrip(i);
      NatToString(i)
  }

  /** The number a string of decimal digits denotes. */
  function DigitsValue(s: string): nat
    requires IsDigits(s)
  {
    if s == [] then 0
    else DigitsValue(s[..|s| - 1]) * 10 + DigitValue(s[|s| - 1])
  }

  /** Reading back the text of `n` gives `n`. */
  lemma {:induction false} NatToStringRoundTrip(n: nat)
    ensures DigitsValue(NatToString(n)) == n
  {
    if n >= 10 {
      var s := NatToString(n);
      assert s[..|s| - 1] == NatToString(n / 10);
      NatToStringRoundTrip(n / 10);
    }
  }

  /** Distinct numbers have distinct texts. */
  lemma NatToStringInjective(a: nat, b: nat)
    requires NatToString(a) == NatToString(b)
    ensures a == b
  {
    NatToStringRoundTrip(a);
    NatToStringRoundTrip(b);
  }

  /** A leading zero does not change the value of a digit string. */
  lemma {:induction false} LeadingZero(s: string)
    requires IsDigits(s)
    ensures IsDigits("0" + s) && DigitsValue("0" + s) == DigitsValue(s)
  {
    var z := "0" + s;
    assert IsDigits(z) by {
      forall i | 0 <= i < |z| ensures IsDigit(z[i]) { if i > 0 { assert z[i] == s[i - 1]; } }
    }
    if s != [] {
      var p := s[..|s| - 1];
      assert IsDigits(p) by {
        forall i | 0 <= i < |p| ensures IsDigit(p[i]) { assert p[i] == s[i]; }
      }
      assert z[..|z| - 1] == "0" + p;
      LeadingZero(p);
    }
  }

  /** `n.toString().padStart(2, '0')`: at least two digits long, exactly two
      below 100, and still reading back as `n`. */
  function Pad2(n: nat): (p: string)
    ensures IsDigits(p) && |p| >= 2
    ensures n < 100 ==> |p| == 2
    ensures DigitsValue(p) == n
  {
    var s := NatToString(n);
    NatToStringRoundTrip(n);
    if |s| >= 2 then
      assert 10 <= n < 100 ==> |NatToString(n / 10)| == 1;
      s
    else
      LeadingZero(s);
      "0" + s
  }

  lemma Pad2Injective(a: nat, b: nat)
    requires Pad2(a) == Pad2(b)
    ensures a == b
  {
  }

  /** A string that starts with a run of digits followed by a non-digit splits
      at that non-digit in only one way. */
  lemma DigitRunUnique(d1: string, t1: string, d2: string, t2: string)
    requires IsDigits(d1) && IsDigits(d2)
    requires |t1| > 0 && |t2| > 0 && !IsDigit(t1[0]) && !IsDigit(t2[0])
    requires d1 + t1 == d2 + t2
    ensures d1 == d2 && t1 == t2
  {
    var s := d1 + t1;
    assert forall i :: 0 <= i < |d1| ==> IsDigit(s[i]);
    assert forall i :: 0 <= i < |d2| ==> IsDigit(s[i]);
    assert !IsDigit(s[|d1|]) && !IsDigit(s[|d2|]);
    assert |d1| == |d2|;
    assert d1 == s[..|d1|] == d2;
    assert t1 == s[|d1|..] == t2;
  }
}
