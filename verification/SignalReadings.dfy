/** What the features of a short-window signal read from the unsorted candles and the quote, and which scores are acted
    upon. */
module SignalReadings {
  import opened Candles
  import opened Options
  import opened Rounding
  import opened ShortWindow
  import opened SignalEngine
  import opened Sorting

  // ----- which candles are read

  /** How many candles opened after `t`. */
  function OpenedAfter(candles: seq<Candle>, t: int): nat { |Filter(candles, After(OpenMs, t))| }

  ghost predicate DistinctTimes(candles: seq<Candle>) { DistinctKeys(candles, OpenMs) }

  /** The candle of the history after which exactly `k` candles opened. */
  ghost predicate FromTheEnd(candles: seq<Candle>, c: Candle, k: nat) {
    c in candles && OpenedAfter(candles, c.openMs) == k
  }

  /** Relative change in basis points, rounded. */
  function Bps(from: real, to: real): real
    requires from != 0.0
  {
    Round4((to - from) / from * 10000.0)
  }

  /** The momentum compares the close of the candle that opened last with that of the candle three before it, or of the
      earliest one when there are fewer than four; the body compares the last candle's own close and open. */
  ghost predicate ReadsMomentum(f: Features, e: Event, c: Candle, p: Candle) {
    && f.momentumBps == (if p.close == 0.0 then e.distanceBps else Some(Bps(p.close, c.close)))
    && f.candleBodyBps == (if c.open == 0.0 then None else Some(Bps(c.open, c.close)))
  }

  lemma MomentumReads(e: Event, m: MarketState, sqrt: real -> real)
    requires DistinctTimes(m.candles) && m.candles != []
    ensures exists c, p :: FromTheEnd(m.candles, c, 0) && FromTheEnd(m.candles, p, MinInt(3, |m.candles| - 1))
                           && ReadsMomentum(BuildFeatures(e, m, sqrt), e, c, p)
  {
    hide SortBy, Filter, Round4, RealizedVolatility, LastNine, SpreadBps, NoiseThreshold;
    var sorted, n := SortBy(m.candles, OpenMs), |m.candles|;
    var k := if n >= 4 then n - 4 else 0;
    PlaceInOrder(m.candles, OpenMs, n - 1);
    PlaceInOrder(m.candles, OpenMs, k);
    var c, p := sorted[n - 1], sorted[k];
    assert OpenMs(c) == c.openMs && OpenMs(p) == p.openMs;
    assert FromTheEnd(m.candles, c, 0) && FromTheEnd(m.candles, p, MinInt(3, n - 1));
    assert ReadsMomentum(BuildFeatures(e, m, sqrt), e, c, p);
  }

  lemma NoCandlesNoMomentum(e: Event, m: MarketState, sqrt: real -> real)
    requires m.candles == []
    ensures var f := BuildFeatures(e, m, sqrt);
            f.momentumBps == e.distanceBps && f.candleBodyBps == None && f.volatilityBps == None
  {
    hide Round4, SpreadBps, NoiseThreshold;
  }

  /** The volatility is that of the candles after which fewer than nine opened, in opening order. */
  lemma VolatilityReads(e: Event, m: MarketState, sqrt: real -> real)
    requires DistinctTimes(m.candles)
    ensures var last := LastNine(SortBy(m.candles, OpenMs));
            && BuildFeatures(e, m, sqrt).volatilityBps == RealizedVolatility(last, sqrt)
            && StrictlyBy(last, OpenMs)
            && forall c :: c in last <==> c in m.candles && OpenedAfter(m.candles, c.openMs) < 9
  {
    hide SortBy, OpenedAfter, Round4, RealizedVolatility, SpreadBps, NoiseThreshold, LastNine, StrictlyBy;
    LastAreNewest(m.candles);
  }

  lemma OpenedAfterPlace(candles: seq<Candle>, k: nat)
    requires DistinctTimes(candles) && k < |candles|
    ensures SortBy(candles, OpenMs)[k] in candles
    ensures OpenedAfter(candles, SortBy(candles, OpenMs)[k].openMs) == |candles| - 1 - k
  {
    hide SortBy, Filter;
    PlaceInOrder(candles, OpenMs, k);
    assert OpenMs(SortBy(candles, OpenMs)[k]) == SortBy(candles, OpenMs)[k].openMs;
  }

  lemma LastNineReads(s: seq<Candle>)
    ensures |LastNine(s)| == MinInt(9, |s|)
    ensures forall i :: 0 <= i < |LastNine(s)| ==> LastNine(s)[i] == s[|s| - |LastNine(s)| + i]
    ensures StrictlyBy(s, OpenMs) ==> StrictlyBy(LastNine(s), OpenMs)
  {
  }

  lemma LastAreNewest(candles: seq<Candle>)
    requires DistinctTimes(candles)
    ensures var last := LastNine(SortBy(candles, OpenMs));
            StrictlyBy(last, OpenMs) && forall c :: c in last <==> c in candles && OpenedAfter(candles, c.openMs) < 9
  {
    hide SortBy, OpenedAfter, LastNine, StrictlyBy, DistinctTimes;
    LastNineReads(SortBy(candles, OpenMs));
    assert StrictlyBy(SortBy(candles, OpenMs), OpenMs) by { StrictTimes(candles); }
    forall c
      ensures c in LastNine(SortBy(candles, OpenMs)) <==> c in candles && OpenedAfter(candles, c.openMs) < 9
    {
      InLast(candles, c);
    }
  }

  lemma StrictTimes(candles: seq<Candle>)
    requires DistinctTimes(candles)
    ensures StrictlyBy(SortBy(candles, OpenMs), OpenMs)
  {
    SortStrict(candles, OpenMs);
  }

  lemma InLast(candles: seq<Candle>, c: Candle)
    requires DistinctTimes(candles)
    ensures c in LastNine(SortBy(candles, OpenMs)) <==> c in candles && OpenedAfter(candles, c.openMs) < 9
  {
    hide SortBy, OpenedAfter, LastNine, StrictlyBy, DistinctTimes;
    var sorted := SortBy(candles, OpenMs);
    LastNineReads(sorted);
    StrictTimes(candles);
    SortMembers(candles, OpenMs);
    if c in sorted {
      var k :| 0 <= k < |sorted| && sorted[k] == c;
      OpenedAfterPlace(candles, k);
      PlaceInLast(sorted, LastNine(sorted), k);
    }
  }

  lemma PlaceInLast(sorted: seq<Candle>, last: seq<Candle>, k: nat)
    requires StrictlyBy(sorted, OpenMs) && k < |sorted| && |last| == MinInt(9, |sorted|)
    requires forall i :: 0 <= i < |last| ==> last[i] == sorted[|sorted| - |last| + i]
    ensures sorted[k] in last <==> |sorted| - 1 - k < 9
  {
    var d := |sorted| - |last|;
    if k >= d {
      assert last[k - d] == sorted[k];
    } else {
      forall i | 0 <= i < |last|
        ensures last[i] != sorted[k]
      {
        assert OpenMs(sorted[k]) < OpenMs(sorted[d + i]);
      }
    }
  }

  /** With a tick, the market is stale exactly when the tick is older than the limit; without one, when every candle
      opened longer ago than that. */
  lemma FreshnessReads(e: Event, m: MarketState, sqrt: real -> real)
    ensures var stale, limit := BuildFeatures(e, m, sqrt).isStale, m.staleAfterMs.GetOr(120000);
            if m.tick.Some? then stale <==> m.now - m.tick.value.timeMs > limit
            else stale <==> forall c :: c in m.candles ==> m.now - c.openMs > limit
  {
    hide SortBy, Round4, RealizedVolatility, LastNine, SpreadBps, NoiseThreshold;
    var sorted := SortBy(m.candles, OpenMs);
    SortMembers(m.candles, OpenMs);
    SortSorts(m.candles, OpenMs);
    if m.tick.None? && sorted != [] {
      var last := sorted[|sorted| - 1];
      assert last in sorted;
      forall c | c in m.candles
        ensures c.openMs <= last.openMs
      {
        assert c in sorted;
        var i :| 0 <= i < |sorted| && sorted[i] == c;
        assert i < |sorted| - 1 ==> OpenMs(sorted[i]) <= OpenMs(last);
      }
    } else if m.tick.None? {
      assert |m.candles| == 0;
    }
  }

  // ----- quote, noise and penalty

  /** The spread of a quote around a positive middle is twice its half-width relative to the middle; the market's
      own quote goes before that of the tick. */
  lemma SpreadReads(e: Event, m: MarketState, sqrt: real -> real, mid: real, half: real)
    requires mid > 0.0
    ensures SpreadBps(Some(mid - half), Some(mid + half)) == Some(Round4(half / mid * 20000.0))
    ensures m.bid == Some(mid - half) && m.ask == Some(mid + half) ==>
              BuildFeatures(e, m, sqrt).spreadBps == Some(Round4(half / mid * 20000.0))
    ensures m.bid == None && m.ask == None && m.tick.Some?
            && m.tick.value.bid == Some(mid - half) && m.tick.value.ask == Some(mid + half) ==>
              BuildFeatures(e, m, sqrt).spreadBps == Some(Round4(half / mid * 20000.0))
    ensures m.bid == None && m.tick == None ==> BuildFeatures(e, m, sqrt).spreadBps == None
    ensures m.ask == None && m.tick == None ==> BuildFeatures(e, m, sqrt).spreadBps == None
  {
    hide Round4, SortBy, RealizedVolatility, LastNine, NoiseThreshold;
    assert ((mid - half) + (mid + half)) / 2.0 == mid;
    DoubledRatio(mid, half);
  }

  lemma DoubledRatio(mid: real, half: real)
    requires mid > 0.0
    ensures ((mid + half) - (mid - half)) / mid * 10000.0 == half / mid * 20000.0
  {
    var q := half / mid;
    assert q * mid == half;
    assert (2.0 * q) * mid == 2.0 * half;
    Quotient(2.0 * q, mid, 2.0 * half);
  }

  lemma Quotient(q: real, d: real, x: real)
    requires d > 0.0 && q * d == x
    ensures x / d == q
  {
  }

  /** The noise threshold lies between 2 and 35, grows with spread and volatility, and is 5.15 without either. */
  lemma NoiseReads(spread: Option<real>, volatility: Option<real>, wider: real, rougher: real)
    ensures 2.0 <= NoiseThreshold(spread, volatility) <= 35.0
    ensures spread.Some? && volatility.Some? && spread.value <= wider && volatility.value <= rougher ==>
              NoiseThreshold(spread, volatility) <= NoiseThreshold(Some(wider), Some(rougher))
    ensures NoiseThreshold(None, None) == 5.15
    ensures NoiseThreshold(Some(4.0), Some(0.0)) == 9.5 && NoiseThreshold(Some(0.0), Some(20.0)) == 12.5
  {
    hide Round4;
    var x := Max(2.0, Min(35.0, volatility.GetOr(3.0) * 0.55 + spread.GetOr(1.0) * 2.0 + 1.5));
    Round4Fixes(20000);
    Round4Fixes(350000);
    Round4Fixes(51500);
    Round4Fixes(95000);
    Round4Fixes(125000);
    Round4Monotone(2.0, x);
    Round4Monotone(x, 35.0);
    if spread.Some? && volatility.Some? && spread.value <= wider && volatility.value <= rougher {
      Round4Monotone(x, Max(2.0, Min(35.0, rougher * 0.55 + wider * 2.0 + 1.5)));
    }
  }

  /** The penalty grows with spread and volatility; volatility counts above 35 only. */
  lemma PenaltyReads(spread: real, volatility: real, wider: real, rougher: real)
    ensures spread <= wider && volatility <= rougher ==>
              Penalty(Some(spread), Some(volatility)) <= Penalty(Some(wider), Some(rougher))
    ensures Penalty(None, None) == 0.0 && Penalty(Some(2.0), None) == 3.0 && Penalty(None, Some(35.0)) == 0.0
    ensures Penalty(None, Some(45.0)) == 0.8
  {
  }

  // ----- score and confidence

  /** Without a penalty the score is the rounded weighted sum; a larger penalty lowers it under a positive lead,
      raises it under a negative one and does nothing without a lead; the lead is the distance, or the momentum when
      there is none. */
  lemma ScoreReads(distance: real, momentum: real, body: real, penalty: real, more: real)
    ensures DirectionalScore(distance, momentum, body, 0.0)
         == Round4(distance * 0.52 + momentum * 0.36 + body * 0.12)
    ensures penalty <= more && (distance > 0.0 || (distance == 0.0 && momentum > 0.0)) ==>
              DirectionalScore(distance, momentum, body, more) <= DirectionalScore(distance, momentum, body, penalty)
    ensures penalty <= more && (distance < 0.0 || (distance == 0.0 && momentum < 0.0)) ==>
              DirectionalScore(distance, momentum, body, more) >= DirectionalScore(distance, momentum, body, penalty)
    ensures distance == 0.0 && momentum == 0.0 ==>
              DirectionalScore(distance, momentum, body, more) == DirectionalScore(distance, momentum, body, penalty)
  {
    hide Round4;
    var u := Unpenalised(distance, momentum, body);
    if penalty <= more {
      Round4Monotone(u - more, u - penalty);
      Round4Monotone(u + penalty, u + more);
    }
  }

  /** A penalty of one moves a score of ten to nine on either side of zero. */
  lemma ScorePenalised()
    ensures DirectionalScore(0.0, 25.0, 8.3333, 1.0) == 9.0 && DirectionalScore(0.0, -25.0, -8.3333, 1.0) == -9.0
  {
    hide Round4;
    Round4Near(8.999996);
    Round4Fixes(90000);
    Round4Odd(8.999996);
    assert Round4(8.999996) == 9.0 by { NineIsNear(); }
  }

  lemma NineIsNear()
    ensures Round4(8.999996) == 9.0
  {
    assert HalfAway(89999.96) == 90000;
  }

  /** The caps fall with the confidence in the rule. */
  lemma CapsRead()
    ensures ConfidenceCap(High) == 0.88 && ConfidenceCap(Medium) == 0.72 && ConfidenceCap(Low) == 0.58
    ensures ConfidenceCap(Unverified) == 0.0
  {
  }

  /** A score of three times the noise, or more, has the confidence of the cap; half of it at most one half; and a
      stronger score never has less. */
  lemma ConfidenceReads(score: real, stronger: real, noise: real, cap: real)
    requires noise >= 2.0 && 0.0 <= cap <= 1.0 && Round4(cap) == cap
    ensures Abs(score) >= noise * 3.0 ==> Confidence(score, noise, cap) == cap
    ensures Abs(score) * 2.0 == noise * 3.0 && cap >= 0.5 ==> Confidence(score, noise, cap) == 0.5
    ensures Abs(score) <= Abs(stronger) ==> Confidence(score, noise, cap) <= Confidence(stronger, noise, cap)
  {
    hide Round4, Abs;
    Round4Fixes(5000);
    var d := noise * 3.0;
    if Abs(score) >= d {
      RatioAboveOne(Abs(score), d);
    }
    if Abs(score) * 2.0 == d {
      Quotient(0.5, d, Abs(score));
    }
    if Abs(score) <= Abs(stronger) {
      RatioGrows(Abs(score), Abs(stronger), d);
      Round4Monotone(Max(0.0, Min(1.0, Min(cap, Max(0.0, Abs(score) / d)))),
                     Max(0.0, Min(1.0, Min(cap, Max(0.0, Abs(stronger) / d)))));
    }
  }

  lemma RatioGrows(x: real, y: real, d: real)
    requires x <= y && d > 0.0
    ensures x / d <= y / d
  {
    assert (y - x) / d >= 0.0;
    assert (x / d) * d == x && (y / d) * d == y;
  }

  // ----- what is acted upon

  /** The gates in front of the score. */
  predicate Open(e: Event, f: Features) {
    && !e.rule.confidence.Unverified? && !e.rule.ruleType.UnknownManualReference?
    && e.startReference.Some? && e.currentPrice.Some? && !f.isStale
    && (f.spreadBps.Some? ==> f.spreadBps.value <= 8.0) && (f.volatilityBps.Some? ==> f.volatilityBps.value <= 90.0)
    && (e.phase.Open? || e.phase.DecisionZone?)
  }

  /** A side is emitted exactly when all gates are open, the score reaches the noise threshold on that side, and the
      confidence that belongs to it reaches the minimum; then it is the confidence of the signal. */
  lemma ActionableExactly(e: Event, m: MarketState, sqrt: real -> real)
    ensures var s, f := Generate(e, m, sqrt), BuildFeatures(e, m, sqrt);
            var score := ScoreOf(e, f);
            var confidence := Confidence(score, f.noiseThresholdBps, ConfidenceCap(e.rule.confidence));
            && (s.side == LONG_UP <==>
                  Open(e, f) && score >= f.noiseThresholdBps && confidence >= m.minConfidence.GetOr(0.38))
            && (s.side == LONG_DOWN <==>
                  Open(e, f) && score <= -f.noiseThresholdBps && confidence >= m.minConfidence.GetOr(0.38))
            && (s.side == LONG_UP || s.side == LONG_DOWN ==> s.confidence == confidence)
  {
    hide Round4, BuildFeatures, Grade, ScoreOf, RoundConfidence, ConfidenceCap, Confidence;
    var f := BuildFeatures(e, m, sqrt);
    NoiseOfFeatures(e, m, sqrt);
    RejectionsEmpty(e, f);
    GradeExactly(ScoreOf(e, f), f.noiseThresholdBps, ConfidenceCap(e.rule.confidence), m.minConfidence.GetOr(0.38));
  }

  lemma NoiseOfFeatures(e: Event, m: MarketState, sqrt: real -> real)
    ensures BuildFeatures(e, m, sqrt).noiseThresholdBps >= 2.0
  {
    hide Round4, SortBy, RealizedVolatility, LastNine, SpreadBps, NoiseThreshold;
    var f := BuildFeatures(e, m, sqrt);
    NoiseReads(f.spreadBps, f.volatilityBps, 0.0, 0.0);
  }

  lemma RejectionsEmpty(e: Event, f: Features)
    ensures Rejections(e, f) == [] <==>
              && !e.rule.confidence.Unverified? && !e.rule.ruleType.UnknownManualReference?
              && e.startReference.Some? && e.currentPrice.Some? && !f.isStale
              && (f.spreadBps.Some? ==> f.spreadBps.value <= 8.0)
  {
  }

  lemma GradeExactly(score: real, noise: real, cap: real, minConfidence: real)
    requires noise >= 2.0
    ensures var s, confidence := Grade(score, noise, cap, minConfidence), Confidence(score, noise, cap);
            && (s.side == LONG_UP <==> score >= noise && confidence >= minConfidence)
            && (s.side == LONG_DOWN <==> score <= -noise && confidence >= minConfidence)
            && (s.side == LONG_UP || s.side == LONG_DOWN ==> s.confidence == confidence)
            && (s.rejectReasons == [BelowNoise] <==> -noise < score < noise)
            && (s.rejectReasons == [BelowNoise] ==> s.confidence == if confidence <= 0.28 then confidence else 0.28)
            && (s.rejectReasons == [LowConfidence] <==>
                  (score >= noise || score <= -noise) && confidence < minConfidence)
            && s.score == Round4(score)
  {
    hide Round4;
    var x := Min(cap, Max(0.0, Abs(score) / Max(1.0, noise * 3.0)));
    Round4Monotone(0.0, Max(0.0, Min(1.0, x)));
    Round4Monotone(Max(0.0, Min(1.0, x)), 1.0);
    Round4Fixes(0);
    Round4Fixes(10000);
    Round4Fixes(2800);
    Round4Idempotent(Max(0.0, Min(1.0, x)));
  }

  /** The waits before the score, each with its reason and confidence. */
  lemma WaitsRead(e: Event, f: Features)
    requires Rejections(e, f) == []
    ensures e.phase.Forming? ==> Gated(e, f) == Some(Signal(WAIT, 0.12, 0.0, [WindowForming]))
    ensures e.phase.Closed? ==> Gated(e, f) == Some(Signal(WAIT, 0.1, 0.0, [WindowClosed]))
    ensures e.phase.NoEntryZone? ==> Gated(e, f) == Some(Signal(WAIT, 0.16, 0.0, [InNoEntryZone]))
    ensures (e.phase.Open? || e.phase.DecisionZone?) && f.volatilityBps.Some? && f.volatilityBps.value > 90.0 ==>
              Gated(e, f) == Some(Signal(WAIT, 0.2, 0.0, [VolatilityTooHigh]))
  {
    hide Round4, Rejections;
    Round4Fixes(0);
    Round4Fixes(1200);
    Round4Fixes(1000);
    Round4Fixes(1600);
    Round4Fixes(2000);
  }
}
