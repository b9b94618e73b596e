/** Division with remainder by a positive step: the facts about grids of multiples. */
module Multiples {

  lemma QuotientUnique(x: int, d: int, q: int, r: int)
    requires d > 0 && x == q * d + r && 0 <= r < d
    ensures x / d == q && x % d == r
  {
    var k := x / d - q;
    assert k * d == r - x % d;
    assert -d < k * d < d;
    SmallMultiple(k, d);
  }

  lemma SmallMultiple(k: int, d: int)
    requires -d < k * d < d
    ensures k == 0
  {
  }

  lemma MultipleOf(q: int, d: int)
    requires d > 0
    ensures q * d % d == 0 && q * d / d == q
  {
    QuotientUnique(q * d, d, q, 0);
  }

  lemma StepsBy(x: int, d: int, k: int)
    requires d > 0
    ensures (x + k * d) % d == x % d && (x + k * d) / d == x / d + k
  {
    assert x + k * d == (x / d + k) * d + x % d;
    QuotientUnique(x + k * d, d, x / d + k, x % d);
  }

  lemma TimesMonotone(a: int, b: int, d: int)
    requires a <= b && d >= 0
    ensures a * d <= b * d
  {
  }

  lemma DivMonotone(x: int, y: int, d: int)
    requires x <= y && d > 0
    ensures x / d <= y / d
  {
    if x / d > y / d {
      TimesMonotone(y / d + 1, x / d, d);
    }
  }

  /** Rounding down twice on nested grids is rounding down once on the coarser one. */
  lemma FloorOfFloor(x: int, d: int, k: int)
    requires d > 0 && k > 0
    ensures k * d > 0
    ensures x / d * d / (k * d) == x / (k * d)
  {
    var y, r := x / d, x % d;
    var q, p := y / k, y % k;
    TimesMonotone(1, k, d);
    TimesMonotone(0, p, d);
    TimesMonotone(p, k - 1, d);
    assert (k - 1) * d == k * d - d;
    assert y * d == q * (k * d) + p * d by {
      assert y == q * k + p;
      Regroup(q, k, d, p);
    }
    QuotientUnique(y * d, k * d, q, p * d);
    QuotientUnique(x, k * d, q, p * d + r);
  }

  lemma Regroup(q: int, k: int, d: int, p: int)
    ensures (q * k + p) * d == q * (k * d) + p * d
  {
  }

  lemma DividesThrough(a: int, b: int, c: int)
    requires a > 0 && b > 0 && b % a == 0 && c % b == 0
    ensures c % a == 0
  {
    var k, l := b / a, c / b;
    assert c == l * (k * a) == (l * k) * a;
    MultipleOf(l * k, a);
  }
}
