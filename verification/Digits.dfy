/** Decimal digits: printing natural numbers and reading digit strings. */
module Digits {
  predicate IsDigit(c: char) { '0' <= c <= '9' }

  function Digit(n: nat): char
    requires n < 10
  {
    "0123456789"[n]
  }

  function DigitValue(c: char): nat
    requires IsDigit(c)
  {
    c as int - '0' as int
  }

  predicate AllDigits(s: string) {
    forall i :: 0 <= i < |s| ==> IsDigit(s[i])
  }

  /** The decimal text of a natural number, most significant digit first. */
  function Decimal(n: nat): string {
    if n < 10 then [Digit(n)] else Decimal(n / 10) + [Digit(n % 10)]
  }

  /** The number a string of digits denotes; leading zeros do not matter. */
  function Value(s: string): nat
    requires AllDigits(s)
  {
    if s == [] then 0 else 10 * Value(s[..|s| - 1]) + DigitValue(s[|s| - 1])
  }

  lemma DigitRoundTrip(n: nat)
    requires n < 10
    ensures IsDigit(Digit(n)) && DigitValue(Digit(n)) == n
  {
  }

  lemma DecimalDigits(n: nat)
    ensures |Decimal(n)| > 0 && AllDigits(Decimal(n))
  {
  }

  lemma {:induction false} ValueOfDecimal(n: nat)
    ensures AllDigits(Decimal(n)) && Value(Decimal(n)) == n
  {
    DecimalDigits(n);
    if n >= 10 {
      ValueOfDecimal(n / 10);
      DigitRoundTrip(n % 10);
      assert Decimal(n)[..|Decimal(n)| - 1] == Decimal(n / 10);
    } else {
      DigitRoundTrip(n);
      assert Decimal(n)[..0] == [];
    }
  }

  /** Printing is injective, since reading undoes it. */
  lemma DecimalInjective(a: nat, b: nat)
    requires Decimal(a) == Decimal(b)
    ensures a == b
  {
    ValueOfDecimal(a);
    ValueOfDecimal(b);
  }

  function Power10(n: nat): (p: nat)
    ensures p >= 1
  {
    if n == 0 then 1 else 10 * Power10(n - 1)
  }

  lemma TimesTen(x: nat, y: nat)
    ensures x * (10 * y) == 10 * (x * y)
  {
  }

  lemma {:induction false} ValueConcat(a: string, b: string)
    requires AllDigits(a) && AllDigits(b)
    ensures AllDigits(a + b) && Value(a + b) == Value(a) * Power10(|b|) + Value(b)
  {
    if b == [] {
      assert a + b == a;
    } else {
      var b' := b[..|b| - 1];
      ValueConcat(a, b');
      assert (a + b)[..|a + b| - 1] == a + b';
      TimesTen(Value(a), Power10(|b'|));
    }
  }

  /** How many digits a string begins with. */
  function Leading(s: string): (h: nat)
    ensures h <= |s| && AllDigits(s[..h]) && (h < |s| ==> !IsDigit(s[h]))
  {
    if s == [] || !IsDigit(s[0]) then 0
    else
      var h := Leading(s[1..]);
      assert forall i :: 0 < i < h + 1 ==> s[i] == s[1..][i - 1];
      h + 1
  }

  lemma {:induction false} LeadingUnique(d: string, rest: string)
    requires AllDigits(d) && (rest == [] || !IsDigit(rest[0]))
    ensures Leading(d + rest) == |d|
  {
    if d == [] {
      assert d + rest == rest;
    } else {
      assert (d + rest)[1..] == d[1..] + rest;
      LeadingUnique(d[1..], rest);
    }
  }
}
