/** The indicator loops: exponential moving averages, MACD and RSI over real-valued series. */
module Indicators {
  import opened Options
  import opened Rounding

  // ----- exponential moving average

  function Alpha(period: nat): real { 2.0 / (period as real + 1.0) }

  /** One step of the average towards the value. */
  function Toward(previous: real, value: real, alpha: real): real { value * alpha + previous * (1.0 - alpha) }

  function EmaAt(values: seq<real>, alpha: real, k: nat): real
    requires k < |values|
  {
    if k == 0 then values[0] else Toward(EmaAt(values, alpha, k - 1), values[k], alpha)
  }

  /** `emaSeries`; an empty series is an error. */
  method EmaSeries(values: seq<real>, period: nat) returns (r: Option<seq<real>>)
    ensures r.None? <==> values == []
    ensures r.Some? ==> |r.value| == |values|
                        && forall k :: 0 <= k < |values| ==>
                             r.value[k] == EmaAt(values, 2.0 / (period as real + 1.0), k)
  {
    hide Toward;
    if values == [] {
      return None;
    }
    var alpha := Alpha(period);
    var result := [values[0]];
    for index := 1 to |values|
      invariant |result| == index
      invariant forall k :: 0 <= k < index ==> result[k] == EmaAt(values, alpha, k)
    {
      result := result + [Toward(result[index - 1], values[index], alpha)];
    }
    r := Some(result);
  }

  lemma AlphaRange(period: nat)
    requires period >= 1
    ensures 0.0 < Alpha(period) <= 1.0
  {
  }

  lemma AlphaShrinks(short: nat, long: nat)
    requires 1 <= short <= long
    ensures Alpha(long) <= Alpha(short)
  {
    var s, l := short as real + 1.0, long as real + 1.0;
    assert 2.0 / s - 2.0 / l >= 0.0 by {
      assert (2.0 / s) * s == 2.0 && (2.0 / l) * l == 2.0;
      QuotientOrder(2.0 / s, s, 2.0 / l, l);
    }
  }

  lemma ProductSign(x: real, y: real)
    requires x >= 0.0 && y >= 0.0
    ensures x * y >= 0.0
  {
  }

  lemma QuotientOrder(x: real, s: real, y: real, l: real)
    requires 0.0 < s <= l && x * s == y * l && x > 0.0
    ensures y <= x
  {
    assert (x - y) * l == x * (l - s);
    ProductSign(x, l - s);
    FactorSign(x - y, l);
  }

  lemma FactorSign(z: real, l: real)
    requires z * l >= 0.0 && l > 0.0
    ensures z >= 0.0
  {
  }

  lemma TowardBetween(previous: real, value: real, alpha: real, low: real, high: real)
    requires 0.0 <= alpha <= 1.0 && low <= previous <= high && low <= value <= high
    ensures low <= Toward(previous, value, alpha) <= high
  {
    ProductSign(value - low, alpha);
    ProductSign(previous - low, 1.0 - alpha);
    ProductSign(high - value, alpha);
    ProductSign(high - previous, 1.0 - alpha);
  }

  /** Every average lies between any bounds of the values seen so far. */
  lemma {:induction false} EmaWithinBounds(values: seq<real>, alpha: real, k: nat, low: real, high: real)
    requires 0.0 <= alpha <= 1.0 && k < |values|
    requires forall i :: 0 <= i <= k ==> low <= values[i] <= high
    ensures low <= EmaAt(values, alpha, k) <= high
  {
    if k > 0 {
      EmaWithinBounds(values, alpha, k - 1, low, high);
      TowardBetween(EmaAt(values, alpha, k - 1), values[k], alpha, low, high);
    }
  }

  ghost predicate NonDecreasing(values: seq<real>) { forall i, j :: 0 <= i <= j < |values| ==> values[i] <= values[j] }

  lemma TowardDominates(fast: real, slow: real, value: real, a: real, b: real)
    requires slow <= fast && slow <= value && 0.0 <= b <= a <= 1.0
    ensures Toward(slow, value, b) <= Toward(fast, value, a)
  {
    ProductSign(fast - slow, 1.0 - a);
    ProductSign(value - slow, a - b);
  }

  /** On a series that never falls, the average with the larger weight is nowhere below the other one. */
  lemma {:induction false} FastDominatesSlow(values: seq<real>, a: real, b: real, k: nat)
    requires NonDecreasing(values) && 0.0 <= b <= a <= 1.0 && k < |values|
    ensures EmaAt(values, b, k) <= EmaAt(values, a, k)
  {
    if k > 0 {
      FastDominatesSlow(values, a, b, k - 1);
      EmaWithinBounds(values, b, k - 1, values[0], values[k]);
      TowardDominates(EmaAt(values, a, k - 1), EmaAt(values, b, k - 1), values[k], a, b);
    }
  }

  function MacdLine(values: seq<real>, fast: nat, slow: nat, k: nat): real
    requires k < |values|
  {
    EmaAt(values, Alpha(fast), k) - EmaAt(values, Alpha(slow), k)
  }

  /** On a series that never falls, the MACD line of a shorter over a longer period is never negative. */
  lemma MacdNonNegative(values: seq<real>, fast: nat, slow: nat, k: nat)
    requires NonDecreasing(values) && 1 <= fast <= slow && k < |values|
    ensures MacdLine(values, fast, slow, k) >= 0.0
  {
    AlphaRange(fast);
    AlphaRange(slow);
    AlphaShrinks(fast, slow);
    FastDominatesSlow(values, Alpha(fast), Alpha(slow), k);
  }

  /** The series upside down about `c / 2`. */
  function Reflect(values: seq<real>, c: real): (r: seq<real>)
    ensures |r| == |values| && forall k :: 0 <= k < |r| ==> r[k] == c - values[k]
  {
    seq(|values|, k requires 0 <= k < |values| => c - values[k])
  }

  lemma TowardReflects(previous: real, value: real, alpha: real, c: real)
    ensures Toward(c - previous, c - value, alpha) == c - Toward(previous, value, alpha)
  {
    assert (c - value) * alpha == c * alpha - value * alpha;
    assert (c - previous) * (1.0 - alpha) == c * (1.0 - alpha) - previous * (1.0 - alpha);
    assert c * alpha + c * (1.0 - alpha) == c;
  }

  /** Turning a series upside down turns its averages upside down and negates its MACD line. */
  lemma {:induction false} EmaReflects(values: seq<real>, alpha: real, c: real, k: nat)
    requires k < |values|
    ensures EmaAt(Reflect(values, c), alpha, k) == c - EmaAt(values, alpha, k)
  {
    if k > 0 {
      hide Toward;
      EmaReflects(values, alpha, c, k - 1);
      TowardReflects(EmaAt(values, alpha, k - 1), values[k], alpha, c);
    }
  }

  lemma MacdReflects(values: seq<real>, fast: nat, slow: nat, c: real, k: nat)
    requires k < |values|
    ensures MacdLine(Reflect(values, c), fast, slow, k) == -MacdLine(values, fast, slow, k)
  {
    EmaReflects(values, Alpha(fast), c, k);
    EmaReflects(values, Alpha(slow), c, k);
  }

  /** The MACD line as a series. */
  function MacdSeries(values: seq<real>, fast: nat, slow: nat): (r: seq<real>)
    ensures |r| == |values| && forall k :: 0 <= k < |r| ==> r[k] == MacdLine(values, fast, slow, k)
  {
    seq(|values|, k requires 0 <= k < |values| => MacdLine(values, fast, slow, k))
  }

  /** The line minus its own average. */
  function Histogram(values: seq<real>, fast: nat, slow: nat, signal: nat, k: nat): real
    requires k < |values|
  {
    MacdLine(values, fast, slow, k) - EmaAt(MacdSeries(values, fast, slow), Alpha(signal), k)
  }

  /** Upside down, the whole histogram changes sign, and with it every slope of it. */
  lemma HistogramReflects(values: seq<real>, fast: nat, slow: nat, signal: nat, c: real, k: nat)
    requires k < |values|
    ensures Histogram(Reflect(values, c), fast, slow, signal, k) == -Histogram(values, fast, slow, signal, k)
  {
    hide MacdLine;
    var line := MacdSeries(values, fast, slow);
    forall i | 0 <= i < |values|
      ensures MacdLine(Reflect(values, c), fast, slow, i) == -MacdLine(values, fast, slow, i)
    {
      MacdReflects(values, fast, slow, c, i);
    }
    assert MacdSeries(Reflect(values, c), fast, slow) == Reflect(line, 0.0);
    EmaReflects(line, Alpha(signal), 0.0, k);
  }

  lemma {:induction false} EmaOfPrefix(values: seq<real>, other: seq<real>, alpha: real, k: nat)
    requires k < |values| && k < |other| && values[..k + 1] == other[..k + 1]
    ensures EmaAt(values, alpha, k) == EmaAt(other, alpha, k)
  {
    hide Toward;
    assert values[k] == values[..k + 1][k] == other[k];
    if k > 0 {
      assert values[..k] == values[..k + 1][..k] == other[..k];
      EmaOfPrefix(values, other, alpha, k - 1);
    }
  }

  /** Raising the last value by `d` raises the average by its weight. */
  lemma LastValueMovesEma(values: seq<real>, alpha: real, d: real)
    requires |values| >= 2
    ensures var n := |values| - 1;
            EmaAt(values[n := values[n] + d], alpha, n) == EmaAt(values, alpha, n) + alpha * d
  {
    var n := |values| - 1;
    var raised := values[n := values[n] + d];
    assert raised[..n] == values[..n];
    EmaOfPrefix(values, raised, alpha, n - 1);
  }

  lemma LastValueMovesLine(values: seq<real>, fast: nat, slow: nat, d: real)
    requires |values| >= 2
    ensures var n := |values| - 1;
            MacdLine(values[n := values[n] + d], fast, slow, n)
            == MacdLine(values, fast, slow, n) + (Alpha(fast) - Alpha(slow)) * d
  {
    hide EmaAt, Alpha;
    LastValueMovesEma(values, Alpha(fast), d);
    LastValueMovesEma(values, Alpha(slow), d);
  }

  lemma LineOfPrefix(values: seq<real>, other: seq<real>, fast: nat, slow: nat, k: nat)
    requires k < |values| && k < |other| && values[..k + 1] == other[..k + 1]
    ensures MacdLine(values, fast, slow, k) == MacdLine(other, fast, slow, k)
  {
    hide EmaAt, Alpha;
    EmaOfPrefix(values, other, Alpha(fast), k);
    EmaOfPrefix(values, other, Alpha(slow), k);
  }

  /** How the indicator answers the market: raising the last price by `d` raises the MACD line by what the fast weight
      exceeds the slow one, and the histogram by the part of that which its own average does not follow. */
  lemma LastValueMovesHistogram(values: seq<real>, fast: nat, slow: nat, signal: nat, d: real)
    requires |values| >= 2
    ensures var n := |values| - 1;
            var raised := values[n := values[n] + d];
            && MacdLine(raised, fast, slow, n) - MacdLine(values, fast, slow, n) == (Alpha(fast) - Alpha(slow)) * d
            && Histogram(raised, fast, slow, signal, n) - Histogram(values, fast, slow, signal, n)
               == (1.0 - Alpha(signal)) * ((Alpha(fast) - Alpha(slow)) * d)
  {
    hide EmaAt, Alpha, MacdLine;
    var n := |values| - 1;
    var raised := values[n := values[n] + d];
    var line, move := MacdSeries(values, fast, slow), (Alpha(fast) - Alpha(slow)) * d;
    LastValueMovesLine(values, fast, slow, d);
    forall k | 0 <= k < n
      ensures MacdLine(raised, fast, slow, k) == line[k]
    {
      assert raised[..k + 1] == values[..k + 1];
      LineOfPrefix(values, raised, fast, slow, k);
    }
    assert MacdSeries(raised, fast, slow) == line[n := line[n] + move];
    LastValueMovesEma(line, Alpha(signal), move);
  }

  // ----- relative strength

  datatype Averages = Averages(gain: real, loss: real)

  function Gain(values: seq<real>, k: nat): real
    requires 0 < k < |values|
  {
    Max(values[k] - values[k - 1], 0.0)
  }

  function Loss(values: seq<real>, k: nat): real
    requires 0 < k < |values|
  {
    Max(-(values[k] - values[k - 1]), 0.0)
  }

  function Totals(values: seq<real>, k: nat): (t: Averages)
    requires k < |values|
    ensures t.gain >= 0.0 && t.loss >= 0.0
  {
    if k == 0 then Averages(0.0, 0.0)
    else
      var before := Totals(values, k - 1);
      Averages(before.gain + Gain(values, k), before.loss + Loss(values, k))
  }

  function Smooth(average: real, change: real, period: nat): (r: real)
    requires period >= 1
    ensures average >= 0.0 && change >= 0.0 ==> r >= 0.0
  {
    SmoothSigned(average, change, period);
    (average * (period as real - 1.0) + change) / period as real
  }

  lemma QuotientSigned(x: real, y: real)
    requires x >= 0.0 && y > 0.0
    ensures x / y >= 0.0 && (x / y == 0.0 <==> x == 0.0)
  {
    var q := x / y;
    assert q * y == x;
  }

  lemma SmoothSigned(average: real, change: real, period: nat)
    requires period >= 1
    ensures average >= 0.0 && change >= 0.0 ==> (average * (period as real - 1.0) + change) / period as real >= 0.0
    ensures period >= 2 && average >= 0.0 && change >= 0.0 ==>
              ((average * (period as real - 1.0) + change) / period as real == 0.0 <==> average == 0.0 && change == 0.0)
  {
    var w := period as real - 1.0;
    if average >= 0.0 && change >= 0.0 {
      assert average * w >= 0.0;
      QuotientSigned(average * w + change, period as real);
      if period >= 2 && average > 0.0 {
        assert average * w >= average;
      }
    }
  }

  lemma SmoothZero(average: real, change: real, period: nat)
    requires period >= 2 && average >= 0.0 && change >= 0.0
    ensures Smooth(average, change, period) == 0.0 <==> average == 0.0 && change == 0.0
  {
    SmoothSigned(average, change, period);
  }

  /** The smoothed averages after the value at `k`; neither is ever negative. */
  function AveragesAt(values: seq<real>, period: nat, k: nat): (a: Averages)
    requires 1 <= period <= k < |values|
    ensures a.gain >= 0.0 && a.loss >= 0.0
    decreases k
  {
    if k == period then
      var t := Totals(values, k);
      QuotientSigned(t.gain, period as real);
      QuotientSigned(t.loss, period as real);
      Averages(t.gain / period as real, t.loss / period as real)
    else
      var before := AveragesAt(values, period, k - 1);
      Averages(Smooth(before.gain, Gain(values, k), period), Smooth(before.loss, Loss(values, k), period))
  }

  function Strength(a: Averages): real
    requires a.gain >= 0.0 && a.loss >= 0.0
  {
    if a.loss == 0.0 then 100.0
    else
      QuotientSigned(a.gain, a.loss);
      100.0 - 100.0 / (1.0 + a.gain / a.loss)
  }

  function Rsi(values: seq<real>, period: nat): real
    requires 1 <= period < |values|
  {
    Strength(AveragesAt(values, period, |values| - 1))
  }

  /** `rsiSnapshot`; a series shorter than period + 1 is an error. */
  method RsiSnapshot(values: seq<real>, period: nat) returns (r: Option<real>)
    requires period >= 1
    ensures if |values| < period + 1 then r == None else r == Some(Rsi(values, period))
  {
    hide Strength, Smooth;
    if |values| < period + 1 {
      return None;
    }
    var gain, loss := 0.0, 0.0;
    for index := 1 to period + 1
      invariant Averages(gain, loss) == Totals(values, index - 1)
    {
      gain := gain + Gain(values, index);
      loss := loss + Loss(values, index);
    }
    var averageGain, averageLoss := gain / period as real, loss / period as real;
    for index := period + 1 to |values|
      invariant Averages(averageGain, averageLoss) == AveragesAt(values, period, index - 1)
    {
      averageGain := Smooth(averageGain, Gain(values, index), period);
      averageLoss := Smooth(averageLoss, Loss(values, index), period);
    }
    r := Some(Strength(Averages(averageGain, averageLoss)));
  }

  lemma StrengthOf(a: Averages)
    requires a.gain >= 0.0 && a.loss >= 0.0 && a.gain + a.loss > 0.0
    ensures Strength(a) * (a.gain + a.loss) == 100.0 * a.gain && 0.0 <= Strength(a) <= 100.0
  {
    if a.loss > 0.0 {
      QuotientSigned(a.gain, a.loss);
      var q := a.gain / a.loss;
      assert q * a.loss == a.gain;
      var h := 100.0 / (1.0 + q);
      assert h * (1.0 + q) == 100.0;
      assert h * (1.0 + q) * a.loss == 100.0 * a.loss;
      assert h * (1.0 + q) * a.loss == h * (a.loss + q * a.loss);
      assert h * (a.loss + a.gain) == 100.0 * a.loss;
      assert 0.0 <= h <= 100.0;
    }
  }

  /** RSI lies between 0 and 100. */
  lemma RsiInRange(values: seq<real>, period: nat)
    requires 1 <= period < |values|
    ensures 0.0 <= Rsi(values, period) <= 100.0
  {
    hide Strength, AveragesAt;
    var a := AveragesAt(values, period, |values| - 1);
    if a.gain + a.loss > 0.0 {
      StrengthOf(a);
    } else {
      NoMoveStrength(a);
    }
  }

  lemma NoMoveStrength(a: Averages)
    requires a.gain >= 0.0 && a.loss == 0.0
    ensures Strength(a) == 100.0
  {
  }

  lemma {:induction false} TotalsReflect(values: seq<real>, c: real, k: nat)
    requires k < |values|
    ensures Totals(Reflect(values, c), k) == Averages(Totals(values, k).loss, Totals(values, k).gain)
  {
    if k > 0 {
      TotalsReflect(values, c, k - 1);
    }
  }

  lemma {:induction false} AveragesReflect(values: seq<real>, c: real, period: nat, k: nat)
    requires 1 <= period <= k < |values|
    ensures AveragesAt(Reflect(values, c), period, k)
         == Averages(AveragesAt(values, period, k).loss, AveragesAt(values, period, k).gain)
    decreases k
  {
    hide Smooth;
    if k == period {
      TotalsReflect(values, c, k);
    } else {
      AveragesReflect(values, c, period, k - 1);
    }
  }

  lemma StrengthsAddUp(a: Averages)
    requires a.gain >= 0.0 && a.loss >= 0.0
    ensures Strength(a) + Strength(Averages(a.loss, a.gain)) == 100.0 <==> a.gain + a.loss > 0.0
  {
    if a.gain + a.loss > 0.0 {
      hide Strength;
      StrengthOf(a);
      StrengthOf(Averages(a.loss, a.gain));
      var t, x, y := a.gain + a.loss, Strength(a), Strength(Averages(a.loss, a.gain));
      assert a.loss + a.gain == t;
      SumTimes(x, y, t);
      FactorCancels(x + y, 100.0, t);
    }
  }

  lemma SumTimes(x: real, y: real, t: real)
    ensures (x + y) * t == x * t + y * t
  {
  }

  lemma FactorCancels(x: real, y: real, t: real)
    requires x * t == y * t && t > 0.0
    ensures x == y
  {
    assert (x - y) * t == 0.0;
  }

  ghost predicate Flat(values: seq<real>) { forall k :: 0 < k < |values| ==> values[k] == values[k - 1] }

  lemma {:induction false} TotalsFlat(values: seq<real>, k: nat)
    requires k < |values|
    ensures Totals(values, k).gain + Totals(values, k).loss == 0.0 <==> Flat(values[..k + 1])
  {
    if k > 0 {
      TotalsFlat(values, k - 1);
      FlatPrefix(values, k);
    }
  }

  lemma FlatPrefix(values: seq<real>, k: nat)
    requires 0 < k < |values|
    ensures Flat(values[..k + 1]) <==> Flat(values[..k]) && values[k] == values[k - 1]
  {
    if Flat(values[..k + 1]) {
      forall i | 0 < i < k
        ensures values[..k][i] == values[..k][i - 1]
      {
        assert values[..k + 1][i] == values[..k + 1][i - 1];
      }
      assert values[..k + 1][k] == values[..k + 1][k - 1];
    }
    if Flat(values[..k]) && values[k] == values[k - 1] {
      var longer := values[..k + 1];
      forall i | 0 < i < |longer|
        ensures longer[i] == longer[i - 1]
      {
        if i < k {
          assert values[..k][i] == values[..k][i - 1];
        }
      }
    }
  }

  lemma {:induction false} AveragesFlat(values: seq<real>, period: nat, k: nat)
    requires 2 <= period <= k < |values|
    ensures AveragesAt(values, period, k).gain + AveragesAt(values, period, k).loss == 0.0 <==> Flat(values[..k + 1])
    decreases k
  {
    hide Smooth, Flat;
    if k == period {
      TotalsFlat(values, k);
      QuotientSigned(Totals(values, k).gain, period as real);
      QuotientSigned(Totals(values, k).loss, period as real);
    } else {
      AveragesFlat(values, period, k - 1);
      var before := AveragesAt(values, period, k - 1);
      SmoothZero(before.gain, Gain(values, k), period);
      SmoothZero(before.loss, Loss(values, k), period);
      FlatPrefix(values, k);
    }
  }

  lemma OnePeriodAverages(values: seq<real>, k: nat)
    requires 1 <= k < |values|
    ensures AveragesAt(values, 1, k) == Averages(Gain(values, k), Loss(values, k))
  {
    if k == 1 {
      assert Totals(values, 0) == Averages(0.0, 0.0);
    }
  }

  /** Whether RSI has anything to measure: a one-period RSI looks at the last step only. */
  ghost predicate Moves(values: seq<real>, period: nat)
    requires |values| >= 2
  {
    if period == 1 then values[|values| - 1] != values[|values| - 2] else !Flat(values)
  }

  /** The RSI of a series and of the series upside down add up to 100 if and only if the series moves; when it does
      not, both are 100. */
  lemma RsiReflects(values: seq<real>, c: real, period: nat)
    requires 1 <= period < |values|
    ensures Rsi(values, period) + Rsi(Reflect(values, c), period) == 100.0 <==> Moves(values, period)
  {
    hide Strength, AveragesAt, Flat;
    var k := |values| - 1;
    AveragesReflect(values, c, period, k);
    StrengthsAddUp(AveragesAt(values, period, k));
    if period == 1 {
      OnePeriodAverages(values, k);
    } else {
      AveragesFlat(values, period, k);
      assert values[..k + 1] == values;
    }
  }

  lemma {:induction false} TotalsRise(values: seq<real>, k: nat)
    requires NonDecreasing(values) && k < |values|
    ensures Totals(values, k).loss == 0.0
  {
    if k > 0 {
      TotalsRise(values, k - 1);
      assert values[k - 1] <= values[k];
    }
  }

  lemma {:induction false} AveragesRise(values: seq<real>, period: nat, k: nat)
    requires NonDecreasing(values) && 1 <= period <= k < |values|
    ensures AveragesAt(values, period, k).loss == 0.0
    decreases k
  {
    if k == period {
      TotalsRise(values, k);
    } else {
      AveragesRise(values, period, k - 1);
      assert values[k - 1] <= values[k];
    }
  }

  /** RSI reads rises as strength: on a series that never falls it is 100, on one that never rises, and moves, 0. */
  lemma RsiExtremes(values: seq<real>, period: nat)
    requires 1 <= period < |values|
    ensures NonDecreasing(values) ==> Rsi(values, period) == 100.0
    ensures NonDecreasing(Reflect(values, 0.0)) && Moves(values, period) ==> Rsi(values, period) == 0.0
  {
    hide AveragesAt, Strength;
    var k := |values| - 1;
    if NonDecreasing(values) {
      AveragesRise(values, period, k);
      NoMoveStrength(AveragesAt(values, period, k));
    }
    if NonDecreasing(Reflect(values, 0.0)) && Moves(values, period) {
      AveragesRise(Reflect(values, 0.0), period, k);
      NoMoveStrength(AveragesAt(Reflect(values, 0.0), period, k));
      RsiReflects(values, 0.0, period);
    }
  }

  // ----- how RSI follows the series

  lemma StrengthGrows(a: Averages, b: Averages)
    requires 0.0 <= a.gain <= b.gain && 0.0 <= b.loss <= a.loss
    ensures Strength(a) <= Strength(b)
  {
    if b.loss > 0.0 {
      QuotientSigned(a.gain, a.loss);
      QuotientSigned(b.gain, b.loss);
      CrossGrows(a, b);
      InverseFalls(1.0 + a.gain / a.loss, 1.0 + b.gain / b.loss);
    } else if a.loss > 0.0 {
      StrengthOf(a);
    }
  }

  lemma CrossGrows(a: Averages, b: Averages)
    requires 0.0 <= a.gain <= b.gain && 0.0 < b.loss <= a.loss
    ensures a.gain / a.loss <= b.gain / b.loss
  {
    var p, q := a.gain / a.loss, b.gain / b.loss;
    assert p * a.loss == a.gain && q * b.loss == b.gain;
    QuotientSigned(a.gain, a.loss);
    ProductSign(p, a.loss - b.loss);
    assert p * (a.loss - b.loss) == a.gain - p * b.loss;
    assert (q - p) * b.loss == b.gain - p * b.loss;
    FactorSign(q - p, b.loss);
  }

  lemma InverseFalls(x: real, y: real)
    requires 0.0 < x <= y
    ensures 100.0 / y <= 100.0 / x
  {
    var p, q := 100.0 / x, 100.0 / y;
    assert p * x == 100.0 && q * y == 100.0;
    QuotientSigned(100.0, y);
    ProductSign(q, y - x);
    assert (p - q) * x == q * (y - x);
    FactorSign(p - q, x);
  }

  lemma {:induction false} SamePrefixTotals(values: seq<real>, other: seq<real>, k: nat)
    requires k < |values| && k < |other| && values[..k + 1] == other[..k + 1]
    ensures Totals(values, k) == Totals(other, k)
  {
    if k > 0 {
      assert values[..k] == values[..k + 1][..k] && other[..k] == other[..k + 1][..k];
      assert values[k] == values[..k + 1][k] && other[k] == other[..k + 1][k];
      assert values[k - 1] == values[..k + 1][k - 1] && other[k - 1] == other[..k + 1][k - 1];
      SamePrefixTotals(values, other, k - 1);
    }
  }

  lemma {:induction false} SamePrefixAverages(values: seq<real>, other: seq<real>, period: nat, k: nat)
    requires 1 <= period <= k < |values| && k < |other| && values[..k + 1] == other[..k + 1]
    ensures AveragesAt(values, period, k) == AveragesAt(other, period, k)
    decreases k
  {
    if k == period {
      SamePrefixTotals(values, other, k);
    } else {
      assert values[..k] == values[..k + 1][..k] && other[..k] == other[..k + 1][..k];
      assert values[k] == values[..k + 1][k] && other[k] == other[..k + 1][k];
      assert values[k - 1] == values[..k + 1][k - 1] && other[k - 1] == other[..k + 1][k - 1];
      SamePrefixAverages(values, other, period, k - 1);
    }
  }

  lemma SmoothGrows(average: real, change: real, more: real, period: nat)
    requires period >= 1 && change <= more
    ensures Smooth(average, change, period) <= Smooth(average, more, period)
  {
    var d := period as real;
    var x, y := Smooth(average, change, period), Smooth(average, more, period);
    assert x * d == average * (d - 1.0) + change && y * d == average * (d - 1.0) + more;
    assert (y - x) * d == more - change;
    FactorSign(y - x, d);
  }

  lemma OverGrows(x: real, y: real, period: nat)
    requires period >= 1 && x <= y
    ensures x / period as real <= y / period as real
  {
    var d := period as real;
    var p, q := x / d, y / d;
    assert p * d == x && q * d == y;
    assert (q - p) * d == y - x;
    FactorSign(q - p, d);
  }

  /** Raising the last value of a series never lowers its RSI. */
  lemma RsiRises(values: seq<real>, last: real, period: nat)
    requires 1 <= period < |values| && values[|values| - 1] <= last
    ensures Rsi(values, period) <= Rsi(values[|values| - 1 := last], period)
  {
    hide Smooth, Totals;
    var k := |values| - 1;
    var other := values[k := last];
    assert values[..k] == other[..k];
    if k == period {
      LastTotals(values, last);
      OverGrows(Totals(values, k).gain, Totals(other, k).gain, period);
      OverGrows(Totals(other, k).loss, Totals(values, k).loss, period);
    } else {
      SamePrefixAverages(values, other, period, k - 1);
      var before := AveragesAt(values, period, k - 1);
      SmoothGrows(before.gain, Gain(values, k), Gain(other, k), period);
      SmoothGrows(before.loss, Loss(other, k), Loss(values, k), period);
    }
    StrengthGrows(AveragesAt(values, period, k), AveragesAt(other, period, k));
  }

  lemma LastTotals(values: seq<real>, last: real)
    requires |values| >= 2 && values[|values| - 1] <= last
    ensures var k, other := |values| - 1, values[|values| - 1 := last];
            Totals(values, k).gain <= Totals(other, k).gain && Totals(other, k).loss <= Totals(values, k).loss
  {
    var k := |values| - 1;
    var other := values[k := last];
    assert values[..k] == other[..k];
    SamePrefixTotals(values, other, k - 1);
  }

  lemma StrengthScales(a: Averages, c: real)
    requires a.gain >= 0.0 && a.loss >= 0.0 && c > 0.0 && c * a.gain >= 0.0 && c * a.loss >= 0.0
    ensures Strength(Averages(c * a.gain, c * a.loss)) == Strength(a)
  {
    if a.loss > 0.0 {
      Positive(c, a.loss);
      var q := a.gain / a.loss;
      assert q * a.loss == a.gain;
      assert q * (c * a.loss) == c * (q * a.loss);
      QuotientIs(q, c * a.loss, c * a.gain);
      QuotientSigned(a.gain, a.loss);
    }
  }

  lemma Positive(x: real, y: real)
    requires x > 0.0 && y > 0.0
    ensures x * y > 0.0
  {
  }

  lemma QuotientIs(q: real, d: real, x: real)
    requires d > 0.0 && q * d == x
    ensures x / d == q
  {
  }

  lemma ShrinkIs(x: real, period: nat)
    requires period >= 2
    ensures var c := (period as real - 1.0) / period as real; c > 0.0 && Smooth(x, 0.0, period) == c * x
  {
    var d := period as real;
    QuotientSigned(d - 1.0, d);
    var c := (d - 1.0) / d;
    assert c * d == d - 1.0;
    assert (c * x) * d == x * (c * d);
    QuotientIs(c * x, d, x * (d - 1.0) + 0.0);
  }

  lemma ShrunkStrength(a: Averages, period: nat)
    requires period >= 2 && a.gain >= 0.0 && a.loss >= 0.0
    ensures Strength(Averages(Smooth(a.gain, 0.0, period), Smooth(a.loss, 0.0, period))) == Strength(a)
  {
    hide Strength, Smooth;
    ShrinkIs(a.gain, period);
    ShrinkIs(a.loss, period);
    var c := (period as real - 1.0) / period as real;
    assert Smooth(a.gain, 0.0, period) == c * a.gain && Smooth(a.loss, 0.0, period) == c * a.loss;
    StrengthScales(a, c);
  }

  lemma FlatStepAverages(values: seq<real>, period: nat)
    requires 2 <= period < |values|
    ensures var a := AveragesAt(values, period, |values| - 1);
            AveragesAt(values + [values[|values| - 1]], period, |values|)
            == Averages(Smooth(a.gain, 0.0, period), Smooth(a.loss, 0.0, period))
  {
    hide Smooth, Totals;
    var n := |values|;
    var longer := values + [values[n - 1]];
    assert longer[..n] == values[..n] == values;
    SamePrefixAverages(values, longer, period, n - 1);
  }

  /** The smoothing of Wilder: a step without a change shrinks both averages alike, by (period - 1) / period, so RSI
      stays where it is. */
  lemma FlatStepKeepsRsi(values: seq<real>, period: nat)
    requires 2 <= period < |values|
    ensures Rsi(values + [values[|values| - 1]], period) == Rsi(values, period)
  {
    hide Strength, Smooth, AveragesAt;
    FlatStepAverages(values, period);
    ShrunkStrength(AveragesAt(values, period, |values| - 1), period);
  }

  /** The seed: with exactly one period of changes, the averages are the mean rise and the mean fall. */
  lemma SeedIsMean(values: seq<real>, period: nat)
    requires period >= 1 && |values| == period + 1
    ensures var a := AveragesAt(values, period, period);
            && a.gain * period as real == Totals(values, period).gain
            && a.loss * period as real == Totals(values, period).loss
            && a.gain * period as real - a.loss * period as real == values[period] - values[0]
  {
    TotalsTelescope(values, period);
  }

  lemma {:induction false} TotalsTelescope(values: seq<real>, k: nat)
    requires k < |values|
    ensures Totals(values, k).gain - Totals(values, k).loss == values[k] - values[0]
  {
    if k > 0 {
      TotalsTelescope(values, k - 1);
    }
  }
}
