/**
 * Python's `str(i)` on a non-negative integer: its shortest decimal numeral.
 * The test data generators build every item from it, so its round trip is what
 * makes the generated items distinct.
 */
module Decimal {

  predicate IsDigit(c: char)
  {
    '0' <= c <= '9'
  }

  predicate AllDigits(s: string)
  {
    forall k :: 0 <= k < |s| ==> IsDigit(s[k])
  }

  /** The form `str` produces: digits only, at least one, and no leading zero
      unless the numeral is "0" itself. */
  predicate Canonical(s: string)
  {
    |s| > 0 && AllDigits(s) && (s[0] == '0' ==> |s| == 1)
  }

  function DigitChar(d: nat): (c: char)
    requires d < 10
    ensures IsDigit(c)
  {
    ('0' as int + d) as char
  }

  function DigitValue(c: char): (d: nat)
    requires IsDigit(c)
    ensures d < 10
  {
    c as int - '0' as int
  }

  /** `str(n)`. */
  function Show(n: nat): (s: string)
    ensures |s| > 0
  {
    if n < 10 then [DigitChar(n)] else Show(n / 10) + [DigitChar(n % 10)]
  }

  /** The value of a numeral, read left to right. */
  function Value(s: string): nat
    requires AllDigits(s)
  {
    if s == [] then 0 else 10 * Value(s[..|s| - 1]) + DigitValue(s[|s| - 1])
  }

  /** `str(n)` is always in canonical form. */
  lemma {:induction false} ShowCanonical(n: nat)
    ensures Canonical(Show(n))
  {
    if n >= 10 {
      ShowCanonical(n / 10);
      var t := Show(n / 10);
      assert Show(n)[0] == t[0];
      assert forall k :: 0 <= k < |t| ==> Show(n)[k] == t[k];
      if n / 10 < 10 {
        assert t[0] != '0';
      } else {
        ShowHeadNonZero(n);
      }
    }
  }

  /** A numeral of two or more digits that `str` produces never starts with 0. */
  lemma {:induction false} ShowHeadNonZero(n: nat)
    requires n >= 10
    ensures Show(n)[0] != '0'
  {
    if n / 10 >= 10 {
      ShowHeadNonZero(n / 10);
    }
  }

  /** Reading back what `str` wrote gives the number. */
  lemma {:induction false} ValueOfShow(n: nat)
    ensures AllDigits(Show(n)) && Value(Show(n)) == n
  {
    ShowCanonical(n);
    if n >= 10 {
      var t := Show(n / 10);
      assert Show(n)[..|Show(n)| - 1] == t;
      ValueOfShow(n / 10);
    }
  }

  /** A numeral that does not start with 0 has a positive value. */
  lemma {:induction false} ValuePositive(s: string)
    requires AllDigits(s) && |s| > 0 && s[0] != '0'
    ensures Value(s) > 0
  {
    if |s| > 1 {
      var t := s[..|s| - 1];
      assert t[0] == s[0];
      ValuePositive(t);
    }
  }

  /** Writing the value of a canonical numeral gives the numeral back. */
  lemma {:induction false} ShowOfValue(s: string)
    requires Canonical(s)
    ensures Show(Value(s)) == s
  {
    if |s| > 1 {
      var t, d := s[..|s| - 1], s[|s| - 1];
      assert t[0] == s[0];
      ValuePositive(t);
      ShowOfValue(t);
      var n := Value(s);
      assert n == 10 * Value(t) + DigitValue(d);
      assert n / 10 == Value(t) && n % 10 == DigitValue(d);
      assert s == t + [d];
    }
  }

  /** `str` is injective on non-negative integers. */
  lemma ShowInjective(i: nat, j: nat)
    ensures Show(i) == Show(j) <==> i == j
  {
    ValueOfShow(i);
    ValueOfShow(j);
  }
}
