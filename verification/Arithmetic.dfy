// The few facts about division the other modules need, each proved once.
module Arithmetic {

  lemma DivModUnique(q: int, r: int, d: int)
    requires 0 <= r < d
    ensures (q * d + r) / d == q && (q * d + r) % d == r
  {
    var x := q * d + r;
    var k := q - x / d;
    assert x == (x / d) * d + x % d;
    assert k * d == x % d - r by {
      assert k * d == q * d - (x / d) * d;
    }
    assert (k >= 1 ==> k * d >= d) && (k <= -1 ==> k * d <= -d);
  }

  lemma MultipleDivides(k: nat, d: nat)
    requires d > 0
    ensures (k * d) % d == 0 && (k * d) / d == k
  {
    DivModUnique(k, 0, d);
  }

  /** Adding a multiple of the divisor does not change the remainder. */
  lemma ModAdd(x: nat, k: nat, d: nat)
    requires d > 0
    ensures (k * d + x) % d == x % d
  {
    var q, r := x / d, x % d;
    assert x == q * d + r;
    assert k * d + x == (k + q) * d + r;
    DivModUnique(k + q, r, d);
  }

  lemma MulAssociates(a: nat, b: nat, c: nat)
    ensures a * (b * c) == (a * b) * c
  {
  }

  lemma ModOfMod(i: nat, j: nat, d: nat)
    requires d > 0 && j * d > 0
    ensures (i % (j * d)) % d == i % d
  {
    var p := j * d;
    var q, r := i / p, i % p;
    assert i == q * p + r;
    MulAssociates(q, j, d);
    ModAdd(r, q * j, d);
  }

  lemma ModShift(x: nat, d: nat)
    requires d > 0
    ensures (x + d) % d == x % d
  {
    ModAdd(x, 1, d);
  }

  lemma SumDivides(x: nat, y: nat, d: nat)
    requires d > 0 && x % d == 0 && y % d == 0
    ensures (x + y) % d == 0
  {
    var i, j := x / d, y / d;
    assert x + y == (i + j) * d;
    MultipleDivides(i + j, d);
  }

  lemma DivisorOfMultiple(d: nat, m: nat, k: nat)
    requires d > 0 && m % d == 0
    ensures (k * m) % d == 0
  {
    var i := m / d;
    assert k * m == (k * i) * d;
    MultipleDivides(k * i, d);
  }

  lemma MultipleAtLeast(k: nat, m: nat, d: nat)
    requires k >= m
    ensures k * d >= m * d
  {
    assert k * d == m * d + (k - m) * d;
  }

  function Min(a: int, b: int): int { if a <= b then a else b }

  function Max(a: int, b: int): int { if a >= b then a else b }
}
