/** Decimal rounding as the program does it, `Number(x.toFixed(k))`: ECMA-262 section 21.1.3.3
    picks the nearest multiple of 10^-k and, on a tie, the one further from zero. */
module Rounding {

  /** The nearest integer, ties away from zero. */
  function HalfAway(y: real): (n: int)
    ensures -0.5 <= n as real - y <= 0.5
  {
    if y >= 0.0 then (y + 0.5).Floor else -((0.5 - y).Floor)
  }

  function Round4(x: real): real { HalfAway(x * 10000.0) as real / 10000.0 }

  function Round6(x: real): real { HalfAway(x * 1000000.0) as real / 1000000.0 }

  function Round8(x: real): real { HalfAway(x * 100000000.0) as real / 100000000.0 }

  function Abs(x: real): (r: real)
    ensures r >= 0.0 && (r == x || r == -x)
  {
    if x < 0.0 then -x else x
  }

  /** `Math.sign`, without the negative zero. */
  function Sign(x: real): int { if x > 0.0 then 1 else if x < 0.0 then -1 else 0 }

  function Max(x: real, y: real): real { if x < y then y else x }

  function Min(x: real, y: real): real { if x < y then x else y }

  /** `Math.min(max, Math.max(min, value))`. */
  function Clamp(value: real, low: real, high: real): (r: real)
    ensures low <= high ==> low <= r <= high
  {
    Min(high, Max(low, value))
  }

  function MaxInt(x: int, y: int): int { if x < y then y else x }

  function MinInt(x: int, y: int): int { if x < y then x else y }

  function Distance(n: int, y: real): real { Abs(n as real - y) }

  /** The rule of the standard: no integer is nearer, and a tie goes away from zero. */
  ghost predicate NearestTieAway(n: int, y: real) {
    && (forall m: int :: Distance(n, y) <= Distance(m, y))
    && (forall m: int :: m != n && Distance(n, y) == Distance(m, y) ==> Abs(m as real) < Abs(n as real))
  }

  lemma HalfAwayBeats(y: real, m: int)
    ensures var k := HalfAway(y);
            k == m || Distance(k, y) < Distance(m, y)
            || (Distance(k, y) == Distance(m, y) && Abs(m as real) < Abs(k as real))
  {
    var k := HalfAway(y);
    if m < k {
      assert m as real <= k as real - 1.0;
    } else if m > k {
      assert m as real >= k as real + 1.0;
    }
  }

  lemma HalfAwayIsTheStandard(y: real, n: int)
    ensures NearestTieAway(n, y) <==> n == HalfAway(y)
  {
    var k := HalfAway(y);
    forall m: int
      ensures Distance(k, y) <= Distance(m, y)
      ensures m != k && Distance(k, y) == Distance(m, y) ==> Abs(m as real) < Abs(k as real)
    {
      HalfAwayBeats(y, m);
    }
    assert NearestTieAway(k, y);
    if NearestTieAway(n, y) {
      HalfAwayBeats(y, n);
      assert Distance(n, y) <= Distance(k, y);
    }
  }

  lemma HalfAwayOdd(y: real)
    ensures HalfAway(-y) == -HalfAway(y)
  {
    if y > 0.0 {
      assert 0.5 - (-y) == y + 0.5;
    } else if y < 0.0 {
      assert -y + 0.5 == 0.5 - y;
    }
  }

  lemma HalfAwayMonotone(x: real, y: real)
    requires x <= y
    ensures HalfAway(x) <= HalfAway(y)
  {
    if x < 0.0 <= y {
      assert (0.5 - x).Floor >= 0;
    }
  }

  lemma Round4Odd(x: real)
    ensures Round4(-x) == -Round4(x)
  {
    assert (-x) * 10000.0 == -(x * 10000.0);
    HalfAwayOdd(x * 10000.0);
  }

  lemma Round4Monotone(x: real, y: real)
    requires x <= y
    ensures Round4(x) <= Round4(y)
  {
    HalfAwayMonotone(x * 10000.0, y * 10000.0);
  }

  lemma Round4Near(x: real)
    ensures -0.00005 <= Round4(x) - x <= 0.00005
  {
    var n := HalfAway(x * 10000.0) as real;
    assert -0.5 <= n - x * 10000.0 <= 0.5;
  }

  lemma HalfAwayFixes(n: int)
    ensures HalfAway(n as real) == n
  {
  }

  lemma Round4Fixes(n: int)
    ensures Round4(n as real / 10000.0) == n as real / 10000.0
  {
    HalfAwayFixes(n);
  }

  /** A number already at four decimals is not moved. */
  lemma Round4Idempotent(x: real)
    ensures Round4(Round4(x)) == Round4(x)
  {
    var n := HalfAway(x * 10000.0);
    HalfAwayFixes(n);
    assert Round4(x) * 10000.0 == n as real;
  }
}
