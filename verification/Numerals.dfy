/**
 Strings of decimal digits and the numbers they write.
 */
module Numerals {

  predicate IsDigit(c: char) {
    '0' <= c <= '9'
  }

  predicate Digits(s: string) {
    forall i :: 0 <= i < |s| ==> IsDigit(s[i])
  }

  function DigitValue(c: char): nat {
    if IsDigit(c) then c as int - '0' as int else 0
  }

  // The number that digits write.
  function Number(s: string): nat {
    if s == "" then 0 else Number(s[..|s| - 1]) * 10 + DigitValue(s[|s| - 1])
  }

  function Power10(n: nat): (p: nat)
    ensures p >= 1
  {
    if n == 0 then 1 else 10 * Power10(n - 1)
  }

  lemma NumberOfFront(a: string, b: string)
    requires b != ""
    ensures Number(a + b) == Number(a + b[..|b| - 1]) * 10 + DigitValue(b[|b| - 1])
  {
    assert (a + b)[..|a + b| - 1] == a + b[..|b| - 1];
  }

  lemma {:induction false} NumberOfConcat(a: string, b: string)
    ensures Number(a + b) == Number(a) * Power10(|b|) + Number(b)
  {
    if b == "" {
      assert a + b == a;
    } else {
      NumberOfFront(a, b);
      NumberOfConcat(a, b[..|b| - 1]);
      Shift(Number(a), Power10(|b| - 1));
    }
  }

  lemma Shift(n: nat, p: nat)
    ensures n * p * 10 == n * (10 * p)
  {
  }

  lemma {:induction false} NumberIsShort(s: string)
    ensures Number(s) < Power10(|s|)
  {
    if s != "" {
      NumberIsShort(s[..|s| - 1]);
    }
  }

  lemma {:induction false} Power10Splits(a: nat, b: nat)
    ensures Power10(a + b) == Power10(a) * Power10(b)
  {
    if a > 0 {
      Power10Splits(a - 1, b);
      TenTimes(Power10(a - 1), Power10(b));
    }
  }

  lemma TenTimes(p: nat, q: nat)
    ensures 10 * (p * q) == (10 * p) * q
  {
  }

  lemma Append(s: string, c: char)
    ensures Number(s + [c]) == Number(s) * 10 + DigitValue(c)
  {
  }
}
