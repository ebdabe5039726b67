/**
 Division with a variable divisor, in steps small enough for the verifier.
 */
module Arithmetic {

  lemma MulSmall(k: int, m: int)
    requires -m < k * m < m
    ensures k == 0
  {
  }

  lemma DivModUnique(m: int, x: int, q: int, r: int)
    requires 0 <= r < m && x == q * m + r
    ensures x / m == q && x % m == r
  {
    assert (x / m) * m + x % m == x;
    assert (x / m - q) * m == (x / m) * m - q * m;
    MulSmall(x / m - q, m);
  }

  lemma ModUnique(m: int, x: int, y: int, k: int)
    requires 0 < m && x == y + k * m
    ensures x % m == y % m
  {
    assert (y / m + k) * m == (y / m) * m + k * m;
    DivModUnique(m, x, y / m + k, y % m);
  }
  // Reducing an operand first does not change a sum, a difference or a further remainder.

  lemma ModMinus(m: int, a: int, b: int)
    requires 0 < m
    ensures (a % m - b % m) % m == (a - b) % m
  {
    assert a == (a / m) * m + a % m && b == (b / m) * m + b % m;
    assert (b / m - a / m) * m == (b / m) * m - (a / m) * m;
    ModUnique(m, a % m - b % m, a - b, b / m - a / m);
  }

  lemma ModPlus(m: int, a: int, b: int)
    requires 0 < m
    ensures (a % m + b) % m == (a + b) % m
  {
    ModUnique(m, a % m + b, a + b, -(a / m));
  }

  lemma ModMod(c: int, m: int, i: int)
    requires 0 < c && 0 < m && m % c == 0
    ensures (i % m) % c == i % c
  {
    var k := m / c;
    assert m == k * c;
    assert (i / m) * m == ((i / m) * k) * c;
    ModUnique(c, i % m, i, -((i / m) * k));
  }

  lemma WrappedDifference(m: int, a: int, b: int)
    requires 0 < m && 0 <= a - b < m
    ensures (a % m - b % m) % m == a - b
    ensures a % m == b % m <==> a == b
  {
    ModMinus(m, a, b);
    DivModUnique(m, a - b, 0, a - b);
  }
}
