/**
 * Decimal text as the script handles it: the digit runs its regular
 * expressions capture, Python's int() and str() on them, and Python's
 * ordering of str values, which is what the transition test compares.
 */
module Numerals {
  import opened Wrappers

  predicate IsDigit(c: char) {
    '0' <= c <= '9'
  }

  predicate IsDigits(s: string) {
    forall i :: 0 <= i < |s| ==> IsDigit(s[i])
  }

  function DigitValue(c: char): (d: nat)
    requires IsDigit(c)
    ensures d < 10
  {
    c as int - '0' as int
  }

  function DigitChar(d: nat): (c: char)
    requires d < 10
    ensures IsDigit(c) && DigitValue(c) == d
  {
    ('0' as int + d) as char
  }

  /** The value of a string of decimal digits, most significant digit first. */
  function DigitsValue(s: string): nat
    requires IsDigits(s)
    decreases |s|
  {
    if s == [] then 0 else DigitsValue(s[..|s| - 1]) * 10 + DigitValue(s[|s| - 1])
  }

  /** Python's str() of a natural number: decimal digits without leading zeros. */
  function NatToString(n: nat): (s: string)
    ensures IsDigits(s) && |s| >= 1
    ensures s[0] == '0' ==> s == "0" && n == 0
    decreases n
  {
    if n < 10 then [DigitChar(n)] else NatToString(n / 10) + [DigitChar(n % 10)]
  }

  /** Python's str() of an integer. */
  function IntToString(i: int): (s: string)
  {
    if i < 0 then "-" + NatToString(-i) else NatToString(i)
  }

  /**
   * Python's int() on the texts this program hands it: optionally a minus
   * sign, then at least one decimal digit; anything else raises ValueError,
   * modelled as None.
   */
  function ParseInt(s: string): (r: Option<int>)
    ensures r.Some? ==> |s| > 0
    ensures IsDigits(s) && |s| > 0 ==> r == Some(DigitsValue(s))
  {
    if |s| > 1 && s[0] == '-' && IsDigits(s[1..]) then Some(-(DigitsValue(s[1..]) as int))
    else if |s| > 0 && IsDigits(s) then Some(DigitsValue(s))
    else None
  }

  lemma {:induction false} NatToStringValue(n: nat)
    ensures DigitsValue(NatToString(n)) == n
    decreases n
  {
    if n >= 10 {
      NatToStringValue(n / 10);
      var s := NatToString(n);
      assert s[..|s| - 1] == NatToString(n / 10);
    }
  }

  /** int(str(i)) == i: the text written for a computed temperature reads back as that number. */
  lemma IntToStringRoundTrip(i: int)
    ensures ParseInt(IntToString(i)) == Some(i)
  {
    if i < 0 {
      NegativeRoundTrip(-i);
    } else {
      NatToStringValue(i);
    }
  }

  /** int("-" + str(n)) == -n for a positive n. */
  lemma NegativeRoundTrip(n: nat)
    requires n > 0
    ensures ParseInt("-" + NatToString(n)) == Some(-(n as int))
  {
    var t := NatToString(n);
    var s := "-" + t;
    NatToStringValue(n);
    assert s[1..] == t;
    assert |s| > 1 && s[0] == '-' && IsDigits(s[1..]);
  }

  /** Python's `<` on str: code-point lexicographic order, a proper prefix sorting first. */
  function LexLess(a: string, b: string): bool
    decreases |a|
  {
    if a == [] then b != []
    else if b == [] then false
    else if a[0] != b[0] then a[0] < b[0]
    else LexLess(a[1..], b[1..])
  }

  /** Exactly one of a < b, a == b, b < a holds for Python strings. */
  lemma {:induction false} LexTrichotomy(a: string, b: string)
    ensures a == b ==> !LexLess(a, b)
    ensures a != b ==> LexLess(a, b) != LexLess(b, a)
    decreases |a|
  {
    if a != [] && b != [] && a[0] == b[0] {
      LexTrichotomy(a[1..], b[1..]);
      assert a == [a[0]] + a[1..] && b == [b[0]] + b[1..];
    }
  }

  /** Comparing equal-length strings extended by one character on the right. */
  lemma {:induction false} LexSnoc(a: string, b: string, x: char, y: char)
    requires |a| == |b|
    ensures LexLess(a + [x], b + [y]) <==> LexLess(a, b) || (a == b && x < y)
    decreases |a|
  {
    if a != [] {
      assert (a + [x])[1..] == a[1..] + [x];
      assert (b + [y])[1..] == b[1..] + [y];
      LexSnoc(a[1..], b[1..], x, y);
      if a[0] == b[0] {
        assert a == [a[0]] + a[1..] && b == [b[0]] + b[1..];
      }
    }
  }

  /**
   * For digit strings of the same length the string order Python uses
   * agrees with numeric order (leading zeros included).
   */
  lemma {:induction false} LexMatchesNumeric(a: string, b: string)
    requires IsDigits(a) && IsDigits(b) && |a| == |b|
    ensures LexLess(a, b) <==> DigitsValue(a) < DigitsValue(b)
    ensures a == b <==> DigitsValue(a) == DigitsValue(b)
    decreases |a|
  {
    if a != [] {
      var a', b' := a[..|a| - 1], b[..|b| - 1];
      var x, y := a[|a| - 1], b[|b| - 1];
      assert a == a' + [x] && b == b' + [y];
      LexMatchesNumeric(a', b');
      LexSnoc(a', b', x, y);
      LexTrichotomy(a', b');
      assert DigitsValue(a) == DigitsValue(a') * 10 + DigitValue(x);
      assert DigitsValue(b) == DigitsValue(b') * 10 + DigitValue(y);
    }
  }

  function Pow10(n: nat): nat {
    if n == 0 then 1 else 10 * Pow10(n - 1)
  }

  lemma {:induction false} DigitsBelow(s: string)
    requires IsDigits(s)
    ensures DigitsValue(s) < Pow10(|s|)
    decreases |s|
  {
    if s != [] {
      DigitsBelow(s[..|s| - 1]);
    }
  }

  lemma {:induction false} DigitsAbove(s: string)
    requires IsDigits(s) && |s| > 0 && s[0] != '0'
    ensures Pow10(|s| - 1) <= DigitsValue(s)
    decreases |s|
  {
    if |s| > 1 {
      var s' := s[..|s| - 1];
      assert s'[0] == s[0];
      DigitsAbove(s');
    }
  }

  lemma {:induction false} Pow10Monotone(m: nat, n: nat)
    requires m <= n
    ensures Pow10(m) <= Pow10(n)
    decreases n
  {
    if m < n {
      Pow10Monotone(m, n - 1);
    }
  }

  /**
   * With different lengths the two orders part: a longer digit string
   * without a leading zero is the larger number, yet it sorts first as a
   * string whenever its first digit is the smaller one, as "100" < "95".
   */
  lemma LexDiffersFromNumeric(a: string, b: string)
    requires IsDigits(a) && IsDigits(b) && 0 < |a| < |b|
    requires '0' < b[0] < a[0]
    ensures LexLess(b, a)
    ensures DigitsValue(a) < DigitsValue(b)
  {
    DigitsBelow(a);
    DigitsAbove(b);
    Pow10Monotone(|a|, |b| - 1);
  }
}
