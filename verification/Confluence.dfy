/** The confluence engine: four weighted modules, two risk scores, fifteen vetoes and the thresholds
    of a profile decide LONG, SHORT or NO_SIGNAL. Explanatory texts are left out; vetoes are tags. */
module Confluence {
  import opened Options
  import opened Profiles
  import opened Rounding

  datatype Regime = LowVolatility | NormalVolatility | HighVolatility

  datatype Ema = Ema(fast: real, slow: real, slope: real)

  datatype Returns = Returns(oneMinute: Option<real>, threeMinute: Option<real>, fiveMinute: Option<real>)

  datatype Macd = Macd(histogram: real, histogramSlope: real)

  datatype Bollinger = Bollinger(bandwidth: real, bandPosition: real, squeeze: bool, expansion: bool)

  datatype Volume = Volume(zScore: real, abnormal: bool)

  datatype Features = Features(
    lastClose: real,
    moves: Returns,
    ema: Ema,
    rsi: real,
    macd: Macd,
    bollinger: Bollinger,
    atr: real,
    regime: Regime,
    volume: Volume)

  datatype Macro = RiskOn | Neutral | RiskOff | Unknown

  datatype Context = Context(
    newsScore: Option<real>, xSignalScore: Option<real>, macro: Macro, marketEventRiskFlag: bool)

  datatype DataQuality = Ok | Stale | Insufficient | Conflicted

  datatype Input = Input(
    horizon: Horizon,
    features: Features,
    dataQuality: DataQuality,
    context: Context,
    failClosedReasons: seq<string>,
    profileName: Option<ProfileName>)

  datatype Direction = LONG | SHORT | NO_SIGNAL

  datatype Scores = Scores(
    trend: real, momentum: real, volatility: real, volume: real, reversalRisk: real, chopRisk: real)

  datatype Veto =
    | FailClosed(text: string)
    | StaleData
    | InsufficientData
    | EventRisk
    | FlatTrend
    | FlatMacd
    | TooQuiet
    | TooWild
    | Reversal
    | Chop
    | TrendAgainstMomentum
    | VolatilityAgainstTrend
    | ModulesNotAligned
    | PriceAgainstVolume
    | NoParticipation
    | NoVolumeConfirmation
    | NoTrendAlignment

  datatype Gate = Pass | Watch | Block

  datatype Confirmation = Confirmed | Weak | Missing

  datatype RiskFilters = RiskFilters(
    dataFreshness: Gate, volatility: Gate, volumeConfirmation: Confirmation, chop: Gate, conflict: Gate,
    meanReversion: Gate)

  datatype Evaluation = Evaluation(
    scores: Scores, totalScore: real, direction: Direction, confidence: real, vetoes: seq<Veto>,
    riskFilters: RiskFilters)

  // ----- the scoring modules

  function Ratio(numerator: real, denominator: real): real {
    if denominator == 0.0 then 0.0 else numerator / denominator
  }

  function TrendModule(f: Features): (score: real)
    ensures score == 0.0 || 0.35 <= Abs(score) <= 1.0
  {
    var gap := Ratio(f.ema.fast - f.ema.slow, f.lastClose);
    var slope := Ratio(f.ema.slope, f.lastClose);
    var distance := Ratio(f.lastClose - f.ema.slow, f.lastClose);
    if gap > 0.00035 && slope > 0.00004 && distance > 0.0002 then
      Clamp((gap / 0.0028 + slope / 0.0008 + distance / 0.003) / 3.0, 0.35, 1.0)
    else if gap < -0.00035 && slope < -0.00004 && distance < -0.0002 then
      -Clamp((Abs(gap) / 0.0028 + Abs(slope) / 0.0008 + Abs(distance) / 0.003) / 3.0, 0.35, 1.0)
    else 0.0
  }

  function MacdScore(m: Macd): real {
    if m.histogram > 0.0 && m.histogramSlope > 0.0 then 1.0
    else if m.histogram < 0.0 && m.histogramSlope < 0.0 then -1.0
    else if Abs(m.histogram) > 0.0 then Sign(m.histogram) as real * 0.25
    else 0.0
  }

  function MomentumModule(f: Features): (score: real)
    ensures -1.0 <= score <= 1.0
  {
    var one := f.moves.oneMinute.GetOr(0.0);
    var three := f.moves.threeMinute.GetOr(0.0);
    var five := f.moves.fiveMinute.GetOr(0.0);
    var returnScore := Clamp((one / 0.0012 + three / 0.003 + five / 0.005) / 3.0, -1.0, 1.0);
    Clamp(returnScore * 0.62 + MacdScore(f.macd) * 0.38, -1.0, 1.0)
  }

  function VolatilityModule(f: Features, trend: real, momentum: real): (score: real)
    ensures score == 0.0 || 0.18 <= Abs(score) <= 0.65
  {
    if f.regime.LowVolatility? || f.bollinger.squeeze then 0.0
    else
      var dominant := if Abs(momentum) >= Abs(trend) then Sign(momentum) else Sign(trend);
      if f.bollinger.bandPosition > 0.68 && f.bollinger.expansion then 0.65
      else if f.bollinger.bandPosition < 0.32 && f.bollinger.expansion then -0.65
      else if dominant != 0 && f.regime.NormalVolatility? then dominant as real * 0.35
      else if dominant != 0 && f.regime.HighVolatility? then dominant as real * 0.18
      else 0.0
  }

  function VolumeModule(f: Features): (score: real)
    ensures score == 0.0 || 0.24 <= Abs(score) <= 0.9
  {
    var five := f.moves.fiveMinute.GetOr(0.0);
    if f.volume.abnormal && five > 0.0 then Clamp(0.55 + Min(f.volume.zScore, 3.0) * 0.12, 0.55, 0.9)
    else if f.volume.abnormal && five < 0.0 then -Clamp(0.55 + Min(Abs(f.volume.zScore), 3.0) * 0.12, 0.55, 0.9)
    else if f.volume.zScore > 0.4 && five > 0.0 then 0.24
    else if f.volume.zScore > 0.4 && five < 0.0 then -0.24
    else 0.0
  }

  function MeanReversionRisk(f: Features, trend: real, momentum: real): (risk: real)
    ensures 0.0 <= risk <= 0.8
  {
    var direction := Sign(trend * 0.55 + momentum * 0.45);
    var band := f.bollinger.bandPosition;
    if direction > 0 then
      Clamp((if f.rsi > 72.0 then 0.45 else if f.rsi > 66.0 then 0.24 else 0.0)
            + (if band > 0.92 then 0.35 else if band > 0.82 then 0.18 else 0.0), 0.0, 1.0)
    else if direction < 0 then
      Clamp((if f.rsi < 28.0 then 0.45 else if f.rsi < 34.0 then 0.24 else 0.0)
            + (if band < 0.08 then 0.35 else if band < 0.18 then 0.18 else 0.0), 0.0, 1.0)
    else if f.rsi > 70.0 || f.rsi < 30.0 then 0.25 else 0.0
  }

  predicate Opposed(x: real, y: real) { Sign(x) != 0 && Sign(y) != 0 && Sign(x) != Sign(y) }

  function ChopRiskScore(f: Features, trend: real, momentum: real): (risk: real)
    ensures 0.0 <= risk <= 1.0
  {
    var one := f.moves.oneMinute.GetOr(0.0);
    var three := f.moves.threeMinute.GetOr(0.0);
    var five := f.moves.fiveMinute.GetOr(0.0);
    Clamp((if Opposed(one, five) then 0.28 else 0.0)
          + (if Opposed(trend, momentum) then 0.34 else 0.0)
          + (if Abs(Ratio(f.ema.slope, f.lastClose)) < 0.00004 then 0.2 else 0.0)
          + (if Abs(Ratio(f.macd.histogramSlope, f.lastClose)) < 0.00003 then 0.16 else 0.0)
          + (if f.bollinger.bandwidth < 0.006 || f.regime.LowVolatility? then 0.28 else 0.0)
          + (if Opposed(three, five) then 0.18 else 0.0), 0.0, 1.0)
  }

  function ContextScore(c: Context): (score: real)
    ensures -0.08 <= score <= 0.08
  {
    var macroScore := match c.macro case RiskOn => 0.04 case RiskOff => -0.04 case _ => 0.0;
    Clamp(c.newsScore.GetOr(0.0) * 0.18 + c.xSignalScore.GetOr(0.0) * 0.12 + macroScore, -0.08, 0.08)
  }

  function ModuleScores(f: Features): Scores {
    var trend := TrendModule(f);
    var momentum := MomentumModule(f);
    Scores(trend, momentum, VolatilityModule(f, trend, momentum), VolumeModule(f),
           MeanReversionRisk(f, trend, momentum), ChopRiskScore(f, trend, momentum))
  }

  // ----- the vetoes

  /** When each veto applies. A fail-closed reason applies when it is given and not the empty text. */
  predicate Holds(v: Veto, i: Input, s: Scores, t: Thresholds) {
    var f := i.features;
    var close := f.lastClose;
    var five := f.moves.fiveMinute.GetOr(0.0);
    var hesitant := Abs(s.momentum) < t.strongMomentumBypassAbs;
    match v
    case FailClosed(text) => text != "" && text in i.failClosedReasons
    case StaleData => i.dataQuality == Stale
    case InsufficientData => i.dataQuality == Insufficient
    case EventRisk => i.context.marketEventRiskFlag
    case FlatTrend =>
      && Abs(Ratio(f.ema.slope, close)) < t.minEmaSlopeRatio
      && Abs(Ratio(f.ema.fast - f.ema.slow, close)) < t.minTrendAbs * 0.0018
      && hesitant
    case FlatMacd =>
      && (|| Abs(Ratio(f.macd.histogram, if f.atr == 0.0 then close else f.atr)) < t.minMacdHistogramAtrRatio
          || Abs(Ratio(f.macd.histogram, close)) < t.minMacdHistogramAtrRatio)
      && hesitant
    case TooQuiet =>
      f.regime.LowVolatility? || f.bollinger.squeeze || f.bollinger.bandwidth < t.minVolatilityBandwidth
    case TooWild =>
      f.bollinger.bandwidth > t.maxExtremeVolatilityBandwidth || Ratio(f.atr, close) > t.maxExtremeAtrRatio
    case Reversal => s.reversalRisk >= 0.45 && Sign(s.trend) != 0 && Sign(s.momentum) != Sign(s.trend)
    case Chop => s.chopRisk >= t.maxChopRisk
    case TrendAgainstMomentum => Opposed(s.trend, s.momentum)
    case VolatilityAgainstTrend =>
      Abs(s.volatility) > 0.1 && Sign(s.volatility) != Sign(if s.trend != 0.0 then s.trend else s.momentum)
    case ModulesNotAligned =>
      && Sign(s.trend) != 0 && Sign(s.momentum) != 0 && Sign(s.volume) != 0
      && !(Sign(s.trend) == Sign(s.momentum) == Sign(s.volume))
    case PriceAgainstVolume => Opposed(five, s.volume)
    case NoParticipation => Sign(five) != 0 && f.volume.zScore < -0.4 && Abs(s.momentum) > 0.2
    case NoVolumeConfirmation => Abs(s.volume) < t.minDirectionalVolumeScore && hesitant
    case NoTrendAlignment => Abs(s.trend) < t.minTrendAbs && Abs(s.momentum) >= 0.55
  }

  /** The tags of `filterVetoReasons`, in the order it tests them. */
  const FILTERS: seq<Veto> := [
    StaleData, InsufficientData, EventRisk, FlatTrend, FlatMacd, TooQuiet, TooWild, Reversal, Chop,
    TrendAgainstMomentum, VolatilityAgainstTrend, ModulesNotAligned, PriceAgainstVolume, NoParticipation,
    NoVolumeConfirmation]

  function Applying(tags: seq<Veto>, i: Input, s: Scores, t: Thresholds): (r: seq<Veto>)
    ensures forall v :: v in r <==> v in tags && Holds(v, i, s, t)
  {
    if tags == [] then []
    else (if Holds(tags[0], i, s, t) then [tags[0]] else []) + Applying(tags[1..], i, s, t)
  }

  /** `unique(...)` on the given fail-closed reasons: first occurrences, empty texts dropped. */
  function FailClosedVetoes(reasons: seq<string>): (r: seq<Veto>)
    ensures forall v :: v in r <==> v.FailClosed? && v.text != "" && v.text in reasons
    ensures forall i, j :: 0 <= i < j < |r| ==> r[i] != r[j]
  {
    if reasons == [] then []
    else
      var before := FailClosedVetoes(reasons[..|reasons| - 1]);
      var text := reasons[|reasons| - 1];
      if text == "" || FailClosed(text) in before then before else before + [FailClosed(text)]
  }

  function VetoList(i: Input, s: Scores, t: Thresholds): (r: seq<Veto>)
    ensures forall v :: v in r <==> Holds(v, i, s, t)
  {
    FailClosedVetoes(i.failClosedReasons) + Applying(FILTERS + [NoTrendAlignment], i, s, t)
  }

  // ----- totals, confidence and the verdict

  function BaseScore(s: Scores, volumeWeight: real, context: real): real {
    s.trend * 0.36 + s.momentum * 0.3 + s.volatility * 0.14 + s.volume * volumeWeight + context
  }

  function RiskPenalty(s: Scores): real { s.reversalRisk * 0.12 + s.chopRisk * 0.16 }

  /** The base score moved towards zero by the penalty; it may cross zero. */
  function Penalised(base: real, penalty: real): (r: real)
    ensures -1.0 <= r <= 1.0
  {
    Clamp(if base > 0.0 then base - penalty else if base < 0.0 then base + penalty else base, -1.0, 1.0)
  }

  function TotalScore(base: real, penalty: real): real { Round4(Penalised(base, penalty)) }

  function VolumePenalty(volume: real): real {
    if Abs(volume) >= 0.5 then 0.0 else if Abs(volume) > 0.0 then 0.04 else 0.08
  }

  function ConfidenceOffset(i: Input, s: Scores): real {
    (if i.dataQuality.Ok? then 0.12 else 0.0) - s.reversalRisk * 0.16 - s.chopRisk * 0.18
    - VolumePenalty(s.volume) - (if i.features.regime.HighVolatility? then 0.08 else 0.0)
  }

  function RawConfidence(total: real, offset: real): real {
    Round4(Clamp(Abs(total) * 0.76 + offset, 0.0, 0.9))
  }

  predicate IsConflict(v: Veto) {
    match v
    case FailClosed(text) => "Conflict veto" <= text
    case _ =>
      v in {TrendAgainstMomentum, VolatilityAgainstTrend, ModulesNotAligned, PriceAgainstVolume, NoParticipation}
  }

  function BuildRiskFilters(i: Input, s: Scores, vetoes: seq<Veto>, t: Thresholds): RiskFilters {
    RiskFilters(
      if i.dataQuality.Ok? then Pass else Block,
      if i.features.regime.LowVolatility? || i.features.bollinger.squeeze then Block
      else if i.features.regime.HighVolatility? then Watch else Pass,
      if Abs(s.volume) >= 0.5 then Confirmed else if Abs(s.volume) > 0.0 then Weak else Missing,
      if s.chopRisk >= t.maxChopRisk then Block else if s.chopRisk > 0.38 then Watch else Pass,
      if exists v :: v in vetoes && IsConflict(v) then Block else if s.chopRisk > 0.35 then Watch else Pass,
      if s.reversalRisk > 0.35 then Watch else Pass)
  }

  function RoundScores(s: Scores): Scores {
    Scores(Round4(s.trend), Round4(s.momentum), Round4(s.volatility), Round4(s.volume),
           Round4(s.reversalRisk), Round4(s.chopRisk))
  }

  function ThresholdsFor(i: Input): Thresholds { ThresholdsOf(GetSignalProfile(i.profileName), i.horizon) }

  /** The direction before the confidence gate. */
  function Crossed(vetoed: bool, total: real, t: Thresholds): Direction {
    if vetoed then NO_SIGNAL
    else if total >= t.longThreshold then LONG
    else if total <= t.shortThreshold then SHORT
    else NO_SIGNAL
  }

  function GatedConfidence(direction: Direction, raw: real, t: Thresholds): real {
    if direction.NO_SIGNAL? || raw < t.minConfidence then 0.0 else raw
  }

  /** The verdict for given module scores, thresholds and context score. */
  function Decide(i: Input, s: Scores, t: Thresholds, context: real): Evaluation {
    var total := TotalScore(BaseScore(s, t.volumeConfirmWeight, context), RiskPenalty(s));
    var vetoes := VetoList(i, s, t);
    var direction := Crossed(|vetoes| > 0, total, t);
    var confidence := GatedConfidence(direction, RawConfidence(total, ConfidenceOffset(i, s)), t);
    Evaluation(RoundScores(s), total, if confidence == 0.0 then NO_SIGNAL else direction, confidence, vetoes,
               BuildRiskFilters(i, s, vetoes, t))
  }

  /** What `evaluateConfluence` returns. */
  function Evaluate(i: Input): Evaluation {
    Decide(i, ModuleScores(i.features), ThresholdsFor(i), ContextScore(i.context))
  }

  // ----- the two routines that push reasons

  method FilterVetoReasons(i: Input, s: Scores, t: Thresholds) returns (reasons: seq<Veto>)
    ensures reasons == Applying(FILTERS, i, s, t)
    ensures forall v :: v in reasons <==> v in FILTERS && Holds(v, i, s, t)
  {
    hide Holds;
    reasons := [];
    for k := 0 to |FILTERS|
      invariant reasons == Applying(FILTERS[..k], i, s, t)
    {
      ApplyingSplit(FILTERS[..k], [FILTERS[k]], i, s, t);
      assert FILTERS[..k + 1] == FILTERS[..k] + [FILTERS[k]];
      if Holds(FILTERS[k], i, s, t) {
        reasons := reasons + [FILTERS[k]];
      }
    }
    assert FILTERS[..|FILTERS|] == FILTERS;
  }

  method EvaluateConfluence(i: Input) returns (r: Evaluation)
    ensures r == Evaluate(i)
  {
    hide ThresholdsOf, ModuleScores, BaseScore, TotalScore, RiskPenalty, RawConfidence, ConfidenceOffset,
      BuildRiskFilters, RoundScores, ContextScore, Holds;
    var t := ThresholdsFor(i);
    var s := ModuleScores(i.features);
    var filtered := FilterVetoReasons(i, s, t);
    var vetoes := FailClosedVetoes(i.failClosedReasons) + filtered;
    ApplyingSplit(FILTERS, [NoTrendAlignment], i, s, t);
    assert Applying([NoTrendAlignment], i, s, t) == if Holds(NoTrendAlignment, i, s, t) then [NoTrendAlignment] else [];
    if Holds(NoTrendAlignment, i, s, t) {
      vetoes := vetoes + [NoTrendAlignment];
    }
    assert vetoes == VetoList(i, s, t);
    var base := BaseScore(s, t.volumeConfirmWeight, ContextScore(i.context));
    var total := TotalScore(base, RiskPenalty(s));
    var direction := NO_SIGNAL;
    if |vetoes| == 0 {
      if total >= t.longThreshold {
        direction := LONG;
      } else if total <= t.shortThreshold {
        direction := SHORT;
      }
    }
    var confidence := RawConfidence(total, ConfidenceOffset(i, s));
    if direction.NO_SIGNAL? || confidence < t.minConfidence {
      confidence := 0.0;
    }
    if confidence == 0.0 {
      direction := NO_SIGNAL;
    }
    r := Evaluation(RoundScores(s), total, direction, confidence, vetoes, BuildRiskFilters(i, s, vetoes, t));
  }

  lemma {:induction false} ApplyingSplit(a: seq<Veto>, b: seq<Veto>, i: Input, s: Scores, t: Thresholds)
    ensures Applying(a + b, i, s, t) == Applying(a, i, s, t) + Applying(b, i, s, t)
  {
    hide Holds;
    if a == [] {
      assert a + b == b;
    } else {
      ApplyingSplit(a[1..], b, i, s, t);
      assert (a + b)[1..] == a[1..] + b;
    }
  }
}
