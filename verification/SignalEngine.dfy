/** The short-window signal engine: fail-closed gates, then a directional score, penalised for spread and
    volatility, that must clear a noise threshold and a confidence minimum. The square root of the
    realised volatility is a parameter. */
module SignalEngine {
  import opened Candles
  import opened Options
  import opened Rounding
  import opened ShortWindow
  import opened Sorting

  const DEFAULT_MIN_CONFIDENCE: real := 0.38
  const DEFAULT_STALE_AFTER_MS: int := 120000
  const MAX_SPREAD_BPS: real := 8.0
  const MAX_VOLATILITY_BPS: real := 90.0

  datatype Features = Features(
    spreadBps: Option<real>,
    momentumBps: Option<real>,
    volatilityBps: Option<real>,
    candleBodyBps: Option<real>,
    noiseThresholdBps: real,
    isStale: bool)

  // ----- features

  /** Close-to-close returns in basis points, skipping a zero previous close. */
  function ReturnsBps(s: seq<Candle>): seq<real> {
    if |s| < 2 then []
    else
      var n := |s|;
      var before := ReturnsBps(s[..n - 1]);
      if s[n - 2].close == 0.0 then before
      else before + [(s[n - 1].close - s[n - 2].close) / s[n - 2].close * 10000.0]
  }

  function Sum(xs: seq<real>): real {
    if xs == [] then 0.0 else Sum(xs[..|xs| - 1]) + xs[|xs| - 1]
  }

  function SquaresAbout(xs: seq<real>, mean: real): (r: real)
    ensures r >= 0.0
  {
    if xs == [] then 0.0
    else
      var d := xs[|xs| - 1] - mean;
      assert d * d >= 0.0;
      SquaresAbout(xs[..|xs| - 1], mean) + d * d
  }

  function RealizedVolatility(s: seq<Candle>, sqrt: real -> real): Option<real> {
    var r := ReturnsBps(s);
    if |s| < 3 || |r| < 2 then None
    else
      var n := |r| as real;
      Some(Round4(sqrt(SquaresAbout(r, Sum(r) / n) / n)))
  }

  function SpreadBps(bid: Option<real>, ask: Option<real>): Option<real> {
    if bid.Some? && ask.Some? && (bid.value + ask.value) / 2.0 > 0.0 then
      Some(Round4((ask.value - bid.value) / ((bid.value + ask.value) / 2.0) * 10000.0))
    else None
  }

  function NoiseThreshold(spread: Option<real>, volatility: Option<real>): real {
    Round4(Max(2.0, Min(35.0, volatility.GetOr(3.0) * 0.55 + spread.GetOr(1.0) * 2.0 + 1.5)))
  }

  function OrElse(x: Option<real>, y: Option<real>): Option<real> { if x.Some? then x else y }

  function BidOf(m: MarketState): Option<real> { OrElse(m.bid, if m.tick.Some? then m.tick.value.bid else None) }

  function AskOf(m: MarketState): Option<real> { OrElse(m.ask, if m.tick.Some? then m.tick.value.ask else None) }

  function LastNine(s: seq<Candle>): seq<Candle> { s[MaxInt(0, |s| - 9)..] }

  function BuildFeatures(event: Event, m: MarketState, sqrt: real -> real): Features {
    var sorted := SortBy(m.candles, OpenMs);
    var n := |sorted|;
    var latestTime :=
      if m.tick.Some? then Some(m.tick.value.timeMs) else if n > 0 then Some(sorted[n - 1].openMs) else None;
    var isStale :=
      latestTime.None? || m.now - latestTime.value > m.staleAfterMs.GetOr(DEFAULT_STALE_AFTER_MS);
    var spread := SpreadBps(BidOf(m), AskOf(m));
    var previous := if n >= 4 then n - 4 else 0;
    var momentum :=
      if n > 0 && sorted[previous].close != 0.0 then
        Some(Round4((sorted[n - 1].close - sorted[previous].close) / sorted[previous].close * 10000.0))
      else event.distanceBps;
    var volatility := RealizedVolatility(LastNine(sorted), sqrt);
    var body :=
      if n > 0 && sorted[n - 1].open != 0.0 then
        Some(Round4((sorted[n - 1].close - sorted[n - 1].open) / sorted[n - 1].open * 10000.0))
      else None;
    Features(spread, momentum, volatility, body, NoiseThreshold(spread, volatility), isStale)
  }

  // ----- score, side and confidence

  function Unpenalised(distance: real, momentum: real, body: real): real {
    distance * 0.52 + momentum * 0.36 + body * 0.12
  }

  function Penalty(spread: Option<real>, volatility: Option<real>): real {
    spread.GetOr(0.0) * 1.5 + Max(0.0, volatility.GetOr(0.0) - 35.0) * 0.08
  }

  /** The penalty pulls against the sign of the distance, or of the momentum when the distance is zero. */
  function DirectionalScore(distance: real, momentum: real, body: real, penalty: real): real {
    var lead := if distance != 0.0 then distance else momentum;
    var u := Unpenalised(distance, momentum, body);
    Round4(if lead > 0.0 then u - penalty else if lead < 0.0 then u + penalty else u)
  }

  function ConfidenceCap(c: RuleConfidence): real {
    match c case High => 0.88 case Medium => 0.72 case Low => 0.58 case Unverified => 0.0
  }

  function RoundConfidence(x: real): real { Round4(Max(0.0, Min(1.0, x))) }

  function Confidence(score: real, noise: real, cap: real): real {
    RoundConfidence(Min(cap, Max(0.0, Abs(score) / Max(1.0, noise * 3.0))))
  }

  /** The part of the engine after the gates. */
  function Grade(score: real, noise: real, cap: real, minConfidence: real): Signal {
    var confidence := Confidence(score, noise, cap);
    if Abs(score) < noise then Signal(WAIT, RoundConfidence(Min(confidence, 0.28)), Round4(score), [BelowNoise])
    else if confidence < minConfidence then Signal(WAIT, RoundConfidence(confidence), Round4(score), [LowConfidence])
    else
      Signal(if score > 0.0 then LONG_UP else if score < 0.0 then LONG_DOWN else WAIT,
             RoundConfidence(confidence), Round4(score), [])
  }

  function When(c: bool, r: Reason): seq<Reason> { if c then [r] else [] }

  function Rejections(e: Event, f: Features): seq<Reason> {
    When(e.rule.confidence.Unverified? || e.rule.ruleType.UnknownManualReference?, UnverifiedRule)
    + When(e.startReference.None?, MissingStartReference)
    + When(e.currentPrice.None?, MissingCurrentPrice)
    + When(f.isStale, StalePrice)
    + When(f.spreadBps.Some? && f.spreadBps.value > MAX_SPREAD_BPS, SpreadTooWide)
  }

  function Wait(confidence: real, reason: Reason): Signal {
    Signal(WAIT, RoundConfidence(confidence), Round4(0.0), [reason])
  }

  function Gated(e: Event, f: Features): Option<Signal> {
    if Rejections(e, f) != [] then Some(Signal(REJECTED, RoundConfidence(0.0), Round4(0.0), Rejections(e, f)))
    else if e.phase.Forming? then Some(Wait(0.12, WindowForming))
    else if e.phase.Closed? then Some(Wait(0.1, WindowClosed))
    else if e.phase.NoEntryZone? then Some(Wait(0.16, InNoEntryZone))
    else if f.volatilityBps.Some? && f.volatilityBps.value > MAX_VOLATILITY_BPS then Some(Wait(0.2, VolatilityTooHigh))
    else None
  }

  function ScoreOf(e: Event, f: Features): real {
    DirectionalScore(e.distanceBps.GetOr(0.0), f.momentumBps.GetOr(0.0), f.candleBodyBps.GetOr(0.0),
                     Penalty(f.spreadBps, f.volatilityBps))
  }

  function Generate(e: Event, m: MarketState, sqrt: real -> real): Signal {
    var f := BuildFeatures(e, m, sqrt);
    match Gated(e, f)
    case Some(s) => s
    case None =>
      Grade(ScoreOf(e, f), f.noiseThresholdBps, ConfidenceCap(e.rule.confidence),
            m.minConfidence.GetOr(DEFAULT_MIN_CONFIDENCE))
  }

  // ----- the routines with loops and pushed reasons

  method CollectReturns(candles: seq<Candle>) returns (rets: seq<real>)
    ensures rets == ReturnsBps(candles)
  {
    rets := [];
    for index := 0 to |candles|
      invariant rets == ReturnsBps(candles[..index])
    {
      assert candles[..index + 1][..index] == candles[..index];
      if index >= 1 && candles[index - 1].close != 0.0 {
        rets := rets + [(candles[index].close - candles[index - 1].close) / candles[index - 1].close * 10000.0];
      }
    }
    assert candles[..|candles|] == candles;
  }

  method SumUp(xs: seq<real>) returns (sum: real)
    ensures sum == Sum(xs)
  {
    sum := 0.0;
    for k := 0 to |xs|
      invariant sum == Sum(xs[..k])
    {
      assert xs[..k + 1][..k] == xs[..k];
      sum := sum + xs[k];
    }
    assert xs[..|xs|] == xs;
  }

  method SumSquaresAbout(xs: seq<real>, mean: real) returns (sum: real)
    ensures sum == SquaresAbout(xs, mean)
  {
    sum := 0.0;
    for k := 0 to |xs|
      invariant sum == SquaresAbout(xs[..k], mean)
    {
      assert xs[..k + 1][..k] == xs[..k];
      var d := xs[k] - mean;
      sum := sum + d * d;
    }
    assert xs[..|xs|] == xs;
  }

  method RealizedVolatilityBps(candles: seq<Candle>, sqrt: real -> real) returns (r: Option<real>)
    ensures r == RealizedVolatility(candles, sqrt)
  {
    hide Round4, ReturnsBps, Sum, SquaresAbout;
    if |candles| < 3 {
      return None;
    }
    var rets := CollectReturns(candles);
    if |rets| < 2 {
      return None;
    }
    var sum := SumUp(rets);
    var squares := SumSquaresAbout(rets, sum / |rets| as real);
    r := Some(Round4(sqrt(squares / |rets| as real)));
  }

  method RejectReasons(e: Event, f: Features) returns (rejectReasons: seq<Reason>)
    ensures rejectReasons == Rejections(e, f)
  {
    rejectReasons := [];
    if e.rule.confidence.Unverified? || e.rule.ruleType.UnknownManualReference? {
      rejectReasons := rejectReasons + [UnverifiedRule];
    }
    if e.startReference.None? {
      rejectReasons := rejectReasons + [MissingStartReference];
    }
    if e.currentPrice.None? {
      rejectReasons := rejectReasons + [MissingCurrentPrice];
    }
    if f.isStale {
      rejectReasons := rejectReasons + [StalePrice];
    }
    if f.spreadBps.Some? && f.spreadBps.value > MAX_SPREAD_BPS {
      rejectReasons := rejectReasons + [SpreadTooWide];
    }
  }

  method GenerateShortWindowSignal(e: Event, m: MarketState, sqrt: real -> real) returns (signal: Signal)
    ensures signal == Generate(e, m, sqrt)
  {
    hide Round4, BuildFeatures, Grade, DirectionalScore, Penalty, RoundConfidence, ScoreOf, ConfidenceCap;
    var f := BuildFeatures(e, m, sqrt);
    var rejectReasons := RejectReasons(e, f);
    hide Rejections;
    if rejectReasons != [] {
      return Signal(REJECTED, RoundConfidence(0.0), Round4(0.0), rejectReasons);
    }
    if e.phase.Forming? {
      return Wait(0.12, WindowForming);
    }
    if e.phase.Closed? {
      return Wait(0.1, WindowClosed);
    }
    if e.phase.NoEntryZone? {
      return Wait(0.16, InNoEntryZone);
    }
    if f.volatilityBps.Some? && f.volatilityBps.value > MAX_VOLATILITY_BPS {
      return Wait(0.2, VolatilityTooHigh);
    }
    signal := Grade(ScoreOf(e, f), f.noiseThresholdBps, ConfidenceCap(e.rule.confidence),
                    m.minConfidence.GetOr(DEFAULT_MIN_CONFIDENCE));
  }

  // ----- penalties never flip an actionable side

  /** An actionable side has the sign of the unpenalised score. */
  predicate Agrees(side: Side, unpenalised: real) {
    (side == LONG_UP ==> unpenalised > 0.0) && (side == LONG_DOWN ==> unpenalised < 0.0)
  }

  predicate AgreesAt(spread: Option<real>, volatility: Option<real>, distance: real, momentum: real, body: real,
                     cap: real, minConfidence: real)
  {
    Agrees(Grade(DirectionalScore(distance, momentum, body, Penalty(spread, volatility)),
                 NoiseThreshold(spread, volatility), cap, minConfidence).side,
           Unpenalised(distance, momentum, body))
  }

  lemma NoiseRange(spread: Option<real>, volatility: Option<real>)
    ensures NoiseThreshold(spread, volatility) >= 1.9999
  {
    Round4Near(Max(2.0, Min(35.0, volatility.GetOr(3.0) * 0.55 + spread.GetOr(1.0) * 2.0 + 1.5)));
  }

  /** A score on the other side of zero than the unpenalised one is at most the penalty in size. */
  lemma FlippedScoreIsSmall(distance: real, momentum: real, body: real, penalty: real)
    ensures Unpenalised(distance, momentum, body) <= 0.0 ==>
              DirectionalScore(distance, momentum, body, penalty) <= Round4(Abs(penalty))
    ensures Unpenalised(distance, momentum, body) >= 0.0 ==>
              DirectionalScore(distance, momentum, body, penalty) >= -Round4(Abs(penalty))
  {
    hide Round4;
    var lead := if distance != 0.0 then distance else momentum;
    var u := Unpenalised(distance, momentum, body);
    var x := if lead > 0.0 then u - penalty else if lead < 0.0 then u + penalty else u;
    if u <= 0.0 {
      Round4Monotone(x, Abs(penalty));
    }
    if u >= 0.0 {
      Round4Monotone(-Abs(penalty), x);
      Round4Odd(Abs(penalty));
    }
  }

  lemma GradedSide(score: real, noise: real, cap: real, minConfidence: real)
    ensures var side := Grade(score, noise, cap, minConfidence).side;
            && (side == LONG_UP ==> score >= noise && score > 0.0)
            && (side == LONG_DOWN ==> score <= -noise && score < 0.0)
    ensures score >= noise > 0.0 && cap >= 0.0 && minConfidence <= 0.0 ==>
              Grade(score, noise, cap, minConfidence).side == LONG_UP
  {
    hide Round4;
    if score >= noise > 0.0 && cap >= 0.0 && minConfidence <= 0.0 {
      var x := Min(cap, Max(0.0, Abs(score) / Max(1.0, noise * 3.0)));
      Round4Monotone(0.0, Max(0.0, Min(1.0, x)));
      Round4Zero();
    }
  }

  lemma Round4Zero()
    ensures Round4(0.0) == 0.0
  {
  }

  /** For a given spread and volatility: whatever distance, momentum, candle body, cap and minimum, the side
      agrees with the unpenalised score, if and only if the rounded penalty is below the noise threshold. */
  lemma PenaltyExactly(spread: Option<real>, volatility: Option<real>)
    ensures (forall distance, momentum, body, cap, minConfidence ::
               AgreesAt(spread, volatility, distance, momentum, body, cap, minConfidence))
       <==> Round4(Abs(Penalty(spread, volatility))) < NoiseThreshold(spread, volatility)
  {
    hide Round4, Grade, DirectionalScore, Penalty, NoiseThreshold, Unpenalised, AgreesAt;
    var p, noise := Penalty(spread, volatility), NoiseThreshold(spread, volatility);
    NoiseRange(spread, volatility);
    if Round4(Abs(p)) < noise {
      forall distance, momentum, body, cap, minConfidence
        ensures AgreesAt(spread, volatility, distance, momentum, body, cap, minConfidence)
      {
        SmallPenaltyAgrees(spread, volatility, distance, momentum, body, cap, minConfidence);
      }
    } else {
      LargePenaltyFlips(spread, volatility);
    }
  }

  lemma SmallPenaltyAgrees(spread: Option<real>, volatility: Option<real>, distance: real, momentum: real,
                           body: real, cap: real, minConfidence: real)
    requires Round4(Abs(Penalty(spread, volatility))) < NoiseThreshold(spread, volatility)
    ensures AgreesAt(spread, volatility, distance, momentum, body, cap, minConfidence)
  {
    hide Round4, Grade, DirectionalScore, Penalty, NoiseThreshold, Unpenalised;
    var p := Penalty(spread, volatility);
    FlippedScoreIsSmall(distance, momentum, body, p);
    GradedSide(DirectionalScore(distance, momentum, body, p), NoiseThreshold(spread, volatility), cap, minConfidence);
  }

  /** The witness: distance and body cancel, so the score is the bare penalty. */
  lemma LargePenaltyFlips(spread: Option<real>, volatility: Option<real>)
    requires Round4(Abs(Penalty(spread, volatility))) >= NoiseThreshold(spread, volatility)
    ensures !AgreesAt(spread, volatility, 3.0, 0.0, -13.0, 0.88, 0.0)
         || !AgreesAt(spread, volatility, -3.0, 0.0, 13.0, 0.88, 0.0)
  {
    hide Round4, Grade, Penalty, NoiseThreshold;
    var p, noise := Penalty(spread, volatility), NoiseThreshold(spread, volatility);
    NoiseRange(spread, volatility);
    GradedSide(Round4(Abs(p)), noise, 0.88, 0.0);
  }

  lemma PenaltyBelowNoise(spread: Option<real>, volatility: Option<real>)
    requires spread.Some? ==> 0.0 <= spread.value <= MAX_SPREAD_BPS
    requires volatility.Some? ==> 0.0 <= volatility.value <= MAX_VOLATILITY_BPS
    ensures Round4(Abs(Penalty(spread, volatility))) + 1.4999 <= NoiseThreshold(spread, volatility)
  {
    hide Round4;
    Round4Near(Penalty(spread, volatility));
    Round4Near(Max(2.0, Min(35.0, volatility.GetOr(3.0) * 0.55 + spread.GetOr(1.0) * 2.0 + 1.5)));
  }

  lemma SpreadNonNegative(bid: Option<real>, ask: Option<real>)
    requires bid.Some? && ask.Some? ==> bid.value <= ask.value
    ensures SpreadBps(bid, ask).Some? ==> SpreadBps(bid, ask).value >= 0.0
  {
    hide Round4;
    if SpreadBps(bid, ask).Some? {
      var mid := (bid.value + ask.value) / 2.0;
      var d := ask.value - bid.value;
      assert d / mid >= 0.0;
      Round4Monotone(0.0, d / mid * 10000.0);
      Round4Zero();
    }
  }

  ghost predicate RootLike(sqrt: real -> real) { forall x: real :: x >= 0.0 ==> sqrt(x) >= 0.0 }

  lemma VolatilityNonNegative(s: seq<Candle>, sqrt: real -> real)
    requires RootLike(sqrt)
    ensures RealizedVolatility(s, sqrt).Some? ==> RealizedVolatility(s, sqrt).value >= 0.0
  {
    hide Round4;
    var r := ReturnsBps(s);
    if |s| >= 3 && |r| >= 2 {
      var n := |r| as real;
      var v := SquaresAbout(r, Sum(r) / n) / n;
      assert v >= 0.0;
      Round4Monotone(0.0, sqrt(v));
      Round4Zero();
    }
  }

  function UnpenalisedOf(e: Event, f: Features): real {
    Unpenalised(e.distanceBps.GetOr(0.0), f.momentumBps.GetOr(0.0), f.candleBodyBps.GetOr(0.0))
  }

  /** With bid <= ask, every LONG_UP and LONG_DOWN of the engine has the sign of the unpenalised score
      0.52 * distance + 0.36 * momentum + 0.12 * body, rounding included. */
  lemma PenaltiesNeverFlip(e: Event, m: MarketState, sqrt: real -> real)
    requires RootLike(sqrt)
    requires BidOf(m).Some? && AskOf(m).Some? ==> BidOf(m).value <= AskOf(m).value
    ensures var f := BuildFeatures(e, m, sqrt);
            var score := e.distanceBps.GetOr(0.0) * 0.52 + f.momentumBps.GetOr(0.0) * 0.36
                         + f.candleBodyBps.GetOr(0.0) * 0.12;
            && (Generate(e, m, sqrt).side == LONG_UP ==> score > 0.0)
            && (Generate(e, m, sqrt).side == LONG_DOWN ==> score < 0.0)
  {
    hide Round4, Grade, DirectionalScore, Penalty, NoiseThreshold, RealizedVolatility, SpreadBps;
    var f := BuildFeatures(e, m, sqrt);
    SpreadNonNegative(BidOf(m), AskOf(m));
    VolatilityNonNegative(LastNine(SortBy(m.candles, OpenMs)), sqrt);
    if Gated(e, f).None? {
      assert Rejections(e, f) == [];
      PenaltyBelowNoise(f.spreadBps, f.volatilityBps);
      SmallPenaltyAgrees(f.spreadBps, f.volatilityBps, e.distanceBps.GetOr(0.0), f.momentumBps.GetOr(0.0),
                         f.candleBodyBps.GetOr(0.0), ConfidenceCap(e.rule.confidence),
                         m.minConfidence.GetOr(DEFAULT_MIN_CONFIDENCE));
    }
  }

  // ----- what an actionable side has passed

  lemma RatioAboveOne(x: real, y: real)
    requires x >= y > 0.0
    ensures x / y >= 1.0
  {
    var q := x / y;
    assert (q - 1.0) * y >= 0.0;
  }

  lemma RoundConfidenceWithin(x: real, cap: real)
    requires Round4(cap) == cap && 0.0 <= cap <= 1.0 && x <= cap
    ensures 0.0 <= RoundConfidence(x) <= cap && RoundConfidence(RoundConfidence(x)) == RoundConfidence(x)
  {
    hide Round4;
    var y := Max(0.0, Min(1.0, x));
    Round4Zero();
    Round4Monotone(0.0, y);
    Round4Monotone(y, cap);
    Round4Idempotent(x);
    Round4Idempotent(y);
  }

  lemma CapIsDecimal(c: RuleConfidence)
    ensures Round4(ConfidenceCap(c)) == ConfidenceCap(c) && 0.0 <= ConfidenceCap(c) <= 1.0
  {
    HalfAwayFixes(8800);
    HalfAwayFixes(7200);
    HalfAwayFixes(5800);
    HalfAwayFixes(0);
  }

  lemma GradedConfidence(score: real, noise: real, cap: real, minConfidence: real)
    requires Round4(cap) == cap && 0.0 <= cap <= 1.0
    ensures var g := Grade(score, noise, cap, minConfidence);
            g.side.LONG_UP? || g.side.LONG_DOWN? ==>
              g.rejectReasons == [] && minConfidence <= g.confidence <= cap && Abs(score) >= noise
  {
    hide Round4;
    var x := Min(cap, Max(0.0, Abs(score) / Max(1.0, noise * 3.0)));
    RoundConfidenceWithin(x, cap);
  }

  /** A LONG_UP or LONG_DOWN of the engine has passed every gate: a verified rule, both prices, fresh data, a spread
      of at most 8 and a volatility of at most 90 basis points, an open window or its decision zone, a score that
      reaches the noise threshold, and a confidence between the minimum and the cap of the rule. */
  lemma ActionablePassesEveryGate(e: Event, m: MarketState, sqrt: real -> real)
    ensures var s := Generate(e, m, sqrt);
            var f := BuildFeatures(e, m, sqrt);
            s.side.LONG_UP? || s.side.LONG_DOWN? ==>
              && s.rejectReasons == []
              && !e.rule.confidence.Unverified? && !e.rule.ruleType.UnknownManualReference?
              && e.startReference.Some? && e.currentPrice.Some? && !f.isStale
              && (f.spreadBps.Some? ==> f.spreadBps.value <= MAX_SPREAD_BPS)
              && (f.volatilityBps.Some? ==> f.volatilityBps.value <= MAX_VOLATILITY_BPS)
              && (e.phase.Open? || e.phase.DecisionZone?)
              && Abs(ScoreOf(e, f)) >= f.noiseThresholdBps
              && m.minConfidence.GetOr(DEFAULT_MIN_CONFIDENCE) <= s.confidence <= ConfidenceCap(e.rule.confidence)
  {
    hide Round4, BuildFeatures, Grade, ScoreOf, RoundConfidence, ConfidenceCap;
    var f := BuildFeatures(e, m, sqrt);
    CapIsDecimal(e.rule.confidence);
    GradedConfidence(ScoreOf(e, f), f.noiseThresholdBps, ConfidenceCap(e.rule.confidence),
                     m.minConfidence.GetOr(DEFAULT_MIN_CONFIDENCE));
    if Gated(e, f).None? {
      assert Rejections(e, f) == [];
    }
  }
}
