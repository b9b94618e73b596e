/** Relational laws of the confluence engine: stricter profiles emit a subset of the signals of looser
    ones, mirrored markets get mirrored verdicts, and an emitted direction is backed by every module. */
module ConfluenceLaws {
  import opened Options
  import opened Profiles
  import opened Rounding
  import opened Confluence

  /** The ranges of the module scores. */
  predicate InRange(s: Scores) {
    && (s.trend == 0.0 || 0.35 <= Abs(s.trend) <= 1.0)
    && Abs(s.momentum) <= 1.0
    && (s.volatility == 0.0 || 0.18 <= Abs(s.volatility) <= 0.65)
    && (s.volume == 0.0 || 0.24 <= Abs(s.volume) <= 0.9)
    && 0.0 <= s.reversalRisk <= 0.8 && 0.0 <= s.chopRisk <= 1.0
  }

  lemma ScoresInRange(f: Features)
    ensures InRange(ModuleScores(f))
  {
  }

  // ----- profile nesting

  function Under(i: Input, profile: ProfileName): Input { i.(profileName := Some(profile)) }

  lemma VetoLoosens(i: Input, s: Scores, strict: Thresholds, loose: Thresholds, v: Veto)
    requires Looser(loose, strict) && Holds(v, i, s, loose)
    ensures Holds(v, i, s, strict)
  {
    assert loose.minTrendAbs * 0.0018 <= strict.minTrendAbs * 0.0018;
  }

  lemma RoundShift(x: real, y: real, d: real)
    requires -d <= y - x <= d
    ensures -d - 0.0001 <= Round4(y) - Round4(x) <= d + 0.0001
  {
    Round4Near(x);
    Round4Near(y);
  }

  lemma StrongBase(base: real, penalty: real)
    requires 0.0 <= penalty <= 0.256 && Abs(TotalScore(base, penalty)) >= 0.6
    ensures TotalScore(base, penalty) >= 0.6 ==> base >= 0.5999
    ensures TotalScore(base, penalty) <= -0.6 ==> base <= -0.5999
  {
    Round4Near(Penalised(base, penalty));
  }

  lemma TotalShift(base: real, other: real, penalty: real)
    requires 0.0 <= penalty <= 0.256 && -0.018 <= other - base <= 0.018
    requires Abs(TotalScore(base, penalty)) >= 0.6
    ensures -0.0181 <= TotalScore(other, penalty) - TotalScore(base, penalty) <= 0.0181
  {
    StrongBase(base, penalty);
    assert -0.018 <= Penalised(other, penalty) - Penalised(base, penalty) <= 0.018;
    RoundShift(Penalised(base, penalty), Penalised(other, penalty), 0.018);
  }

  lemma ConfidenceShift(total: real, other: real, offset: real)
    requires -0.0181 <= other - total <= 0.0181
    ensures RawConfidence(other, offset) >= RawConfidence(total, offset) - 0.0139
  {
    var x := Clamp(Abs(total) * 0.76 + offset, 0.0, 0.9);
    var y := Clamp(Abs(other) * 0.76 + offset, 0.0, 0.9);
    assert -0.0138 <= y - x <= 0.0138;
    RoundShift(x, y, 0.0138);
  }

  lemma WeightDrop(volume: real, strict: real, loose: real)
    requires strict - loose == 0.02 && (volume == 0.0 || Abs(volume) <= 0.9)
    ensures -0.018 <= volume * loose - volume * strict <= 0.018
  {
    assert -0.9 <= volume <= 0.9;
    assert volume * strict - volume * loose == volume * (strict - loose);
  }

  lemma EmptyList<T>(a: seq<T>, b: seq<T>)
    requires forall v :: v in b ==> v in a
    ensures a == [] ==> b == []
  {
    if b != [] {
      var v := b[0];
      assert v in b;
    }
  }

  lemma VetoesShrink(i: Input, j: Input, s: Scores, strict: Thresholds, loose: Thresholds)
    requires j == i.(profileName := j.profileName) && Looser(loose, strict)
    ensures forall v :: v in VetoList(j, s, loose) ==> v in VetoList(i, s, strict)
    ensures VetoList(i, s, strict) == [] ==> VetoList(j, s, loose) == []
  {
    hide VetoList;
    forall v | v in VetoList(j, s, loose)
      ensures v in VetoList(i, s, strict)
    {
      assert Holds(v, i, s, loose) == Holds(v, j, s, loose);
      VetoLoosens(i, s, strict, loose, v);
    }
    EmptyList(VetoList(i, s, strict), VetoList(j, s, loose));
  }

  lemma VerdictNests(vetoed: bool, total: real, other: real, raw: real, rawOther: real,
                     strict: Thresholds, loose: Thresholds)
    requires StepDown(strict, loose)
    requires Abs(total) >= 0.6 ==> -0.0181 <= other - total <= 0.0181 && rawOther >= raw - 0.0139
    requires GatedConfidence(Crossed(vetoed, total, strict), raw, strict) != 0.0
    ensures !vetoed && Crossed(false, other, loose) == Crossed(false, total, strict) != NO_SIGNAL
    ensures GatedConfidence(Crossed(false, other, loose), rawOther, loose) == rawOther >= raw - 0.0139
    ensures rawOther > 0.0
  {
  }

  /** The penalty moves a base score within -1 and 1 by exactly its size, downwards from above zero and upwards from
      below; a score that is zero is not moved. */
  lemma PenaltyPulls(base: real, penalty: real)
    requires -1.0 <= base <= 1.0 && 0.0 <= penalty <= 1.0
    ensures Abs(Penalised(base, penalty) - base) == if base == 0.0 then 0.0 else penalty
    ensures base > 0.0 ==> Penalised(base, penalty) <= base
    ensures base < 0.0 ==> Penalised(base, penalty) >= base
  {
  }

  lemma PenaltyInRange(s: Scores)
    requires InRange(s)
    ensures 0.0 <= RiskPenalty(s) <= 0.256
  {
  }

  lemma BaseShift(s: Scores, strict: real, loose: real, c: real)
    requires InRange(s) && strict - loose == 0.02
    ensures -0.018 <= BaseScore(s, loose, c) - BaseScore(s, strict, c) <= 0.018
  {
    hide Abs;
    WeightDrop(s.volume, strict, loose);
  }

  lemma TotalsNest(s: Scores, strict: real, loose: real, c: real, offset: real)
    requires InRange(s) && strict - loose == 0.02
    requires Abs(TotalScore(BaseScore(s, strict, c), RiskPenalty(s))) >= 0.6
    ensures var total := TotalScore(BaseScore(s, strict, c), RiskPenalty(s));
            var other := TotalScore(BaseScore(s, loose, c), RiskPenalty(s));
            -0.0181 <= other - total <= 0.0181 && RawConfidence(other, offset) >= RawConfidence(total, offset) - 0.0139
  {
    hide TotalScore, RawConfidence, BaseScore, RiskPenalty, InRange;
    PenaltyInRange(s);
    BaseShift(s, strict, loose, c);
    TotalShift(BaseScore(s, strict, c), BaseScore(s, loose, c), RiskPenalty(s));
    ConfidenceShift(TotalScore(BaseScore(s, strict, c), RiskPenalty(s)),
                    TotalScore(BaseScore(s, loose, c), RiskPenalty(s)), offset);
  }

  lemma DecisionNests(i: Input, j: Input, s: Scores, strict: Thresholds, loose: Thresholds, c: real)
    requires j == i.(profileName := j.profileName) && InRange(s) && StepDown(strict, loose)
    requires Decide(i, s, strict, c).direction != NO_SIGNAL
    ensures Decide(j, s, loose, c).direction == Decide(i, s, strict, c).direction
    ensures Decide(j, s, loose, c).confidence >= Decide(i, s, strict, c).confidence - 0.0139
  {
    hide TotalScore, BaseScore, RiskPenalty, RawConfidence, InRange, Holds, VetoList, RoundScores,
      BuildRiskFilters;
    VetoesShrink(i, j, s, strict, loose);
    var total := TotalScore(BaseScore(s, strict.volumeConfirmWeight, c), RiskPenalty(s));
    var other := TotalScore(BaseScore(s, loose.volumeConfirmWeight, c), RiskPenalty(s));
    var offset := ConfidenceOffset(i, s);
    if Abs(total) >= 0.6 {
      TotalsNest(s, strict.volumeConfirmWeight, loose.volumeConfirmWeight, c, offset);
    }
    VerdictNests(|VetoList(i, s, strict)| > 0, total, other, RawConfidence(total, offset),
                 RawConfidence(other, offset), strict, loose);
    assert ConfidenceOffset(j, s) == offset;
  }

  lemma EvaluateUnder(i: Input, profile: ProfileName)
    ensures var s, t := ModuleScores(i.features), ThresholdsOf(profile, i.horizon);
            && Evaluate(Under(i, profile)) == Decide(Under(i, profile), s, t, ContextScore(i.context))
            && Evaluate(Under(i, profile)).vetoes == VetoList(Under(i, profile), s, t)
  {
    hide ModuleScores, ThresholdsOf, ContextScore, VetoList, TotalScore, RawConfidence, BuildRiskFilters, RoundScores;
  }

  /** For every input and horizon: whatever the stricter profile emits, the next looser profile emits in the
      same direction, with a confidence lower by at most 0.0139; and its vetoes are among the stricter ones. */
  lemma ProfileNesting(i: Input, strict: ProfileName, loose: ProfileName)
    requires NextLooser(strict, loose)
    ensures forall v :: v in Evaluate(Under(i, loose)).vetoes ==> v in Evaluate(Under(i, strict)).vetoes
    ensures Evaluate(Under(i, strict)).direction != NO_SIGNAL ==>
              && Evaluate(Under(i, loose)).direction == Evaluate(Under(i, strict)).direction
              && Evaluate(Under(i, loose)).confidence >= Evaluate(Under(i, strict)).confidence - 0.0139
  {
    hide Evaluate, Decide, VetoList, Holds, ModuleScores, ContextScore, ThresholdsOf, InRange;
    var a, b := Under(i, strict), Under(i, loose);
    var s, c := ModuleScores(i.features), ContextScore(i.context);
    var ts, tl := ThresholdsOf(strict, i.horizon), ThresholdsOf(loose, i.horizon);
    TablesStepDown(strict, loose, i.horizon);
    ScoresInRange(i.features);
    EvaluateUnder(i, strict);
    EvaluateUnder(i, loose);
    VetoesShrink(a, b, s, ts, tl);
    if Decide(a, s, ts, c).direction != NO_SIGNAL {
      DecisionNests(a, b, s, ts, tl, c);
    }
  }

  lemma ConservativeWithinAggressive(i: Input)
    ensures var strict := Evaluate(Under(i, Conservative)).direction;
            strict != NO_SIGNAL ==> Evaluate(Under(i, Aggressive)).direction == strict
  {
    ProfileNesting(i, Conservative, Balanced);
    ProfileNesting(i, Balanced, Aggressive);
  }

  // ----- mirror antisymmetry

  function Negated(x: Option<real>): Option<real> {
    match x case None => None case Some(v) => Some(-v)
  }

  /** The same market upside down: moves negated, averages reflected about the last close, RSI and band
      position reflected about their centres, volume untouched. */
  function MirrorFeatures(f: Features): Features {
    f.(moves := Returns(Negated(f.moves.oneMinute), Negated(f.moves.threeMinute), Negated(f.moves.fiveMinute)),
       ema := Ema(2.0 * f.lastClose - f.ema.fast, 2.0 * f.lastClose - f.ema.slow, -f.ema.slope),
       rsi := 100.0 - f.rsi,
       macd := Macd(-f.macd.histogram, -f.macd.histogramSlope),
       bollinger := f.bollinger.(bandPosition := 1.0 - f.bollinger.bandPosition))
  }

  function MirrorContext(c: Context): Context {
    c.(newsScore := Negated(c.newsScore), xSignalScore := Negated(c.xSignalScore),
       macro := match c.macro case RiskOn => RiskOff case RiskOff => RiskOn case other => other)
  }

  function MirrorInput(i: Input): Input {
    i.(features := MirrorFeatures(i.features), context := MirrorContext(i.context))
  }

  function MirrorScores(s: Scores): Scores {
    Scores(-s.trend, -s.momentum, -s.volatility, -s.volume, s.reversalRisk, s.chopRisk)
  }

  function Opposite(d: Direction): Direction {
    match d case LONG => SHORT case SHORT => LONG case NO_SIGNAL => NO_SIGNAL
  }

  function MirrorEvaluation(e: Evaluation): Evaluation {
    e.(scores := MirrorScores(e.scores), totalScore := -e.totalScore, direction := Opposite(e.direction))
  }

  /** The one asymmetry of the source: abnormal volume under a falling price is scored by |zScore|, under a
      rising price by zScore itself. It is invisible when the z-score of abnormal volume is not negative. */
  predicate VolumeUnsigned(f: Features) {
    f.volume.abnormal && f.moves.fiveMinute.GetOr(0.0) != 0.0 ==> f.volume.zScore >= 0.0
  }

  lemma RatioOdd(n: real, d: real)
    ensures Ratio(-n, d) == -Ratio(n, d)
  {
    if d != 0.0 {
      var q := n / d;
      assert q * d == n;
      assert (-q) * d == -n;
    }
  }

  lemma TrendMirrors(f: Features)
    ensures TrendModule(MirrorFeatures(f)) == -TrendModule(f)
  {
    var m := MirrorFeatures(f);
    RatioOdd(f.ema.fast - f.ema.slow, f.lastClose);
    RatioOdd(f.ema.slope, f.lastClose);
    RatioOdd(f.lastClose - f.ema.slow, f.lastClose);
    assert m.ema.fast - m.ema.slow == -(f.ema.fast - f.ema.slow);
    assert m.lastClose - m.ema.slow == -(f.lastClose - f.ema.slow);
  }

  lemma MomentumMirrors(f: Features)
    ensures MomentumModule(MirrorFeatures(f)) == -MomentumModule(f)
  {
  }

  lemma VolumeMirrors(f: Features)
    ensures VolumeModule(MirrorFeatures(f)) == -VolumeModule(f) <==> VolumeUnsigned(f)
  {
  }

  lemma ChopMirrors(f: Features, trend: real, momentum: real)
    ensures ChopRiskScore(MirrorFeatures(f), -trend, -momentum) == ChopRiskScore(f, trend, momentum)
  {
    RatioOdd(f.ema.slope, f.lastClose);
    RatioOdd(f.macd.histogramSlope, f.lastClose);
  }

  lemma ReversalMirrors(f: Features, trend: real, momentum: real)
    ensures MeanReversionRisk(MirrorFeatures(f), -trend, -momentum) == MeanReversionRisk(f, trend, momentum)
  {
    assert (-trend) * 0.55 + (-momentum) * 0.45 == -(trend * 0.55 + momentum * 0.45);
  }

  lemma VolatilityMirrors(f: Features, trend: real, momentum: real)
    ensures VolatilityModule(MirrorFeatures(f), -trend, -momentum) == -VolatilityModule(f, trend, momentum)
  {
  }

  lemma ScoresMirror(f: Features)
    requires VolumeUnsigned(f)
    ensures ModuleScores(MirrorFeatures(f)) == MirrorScores(ModuleScores(f))
  {
    hide TrendModule, MomentumModule, VolatilityModule, VolumeModule, ChopRiskScore, MeanReversionRisk,
      MirrorFeatures;
    var s := ModuleScores(f);
    TrendMirrors(f);
    MomentumMirrors(f);
    VolatilityMirrors(f, s.trend, s.momentum);
    VolumeMirrors(f);
    ChopMirrors(f, s.trend, s.momentum);
    ReversalMirrors(f, s.trend, s.momentum);
  }

  lemma ContextMirrors(c: Context)
    ensures ContextScore(MirrorContext(c)) == -ContextScore(c)
  {
  }

  lemma VetoMirrors(v: Veto, i: Input, s: Scores, t: Thresholds)
    ensures Holds(v, MirrorInput(i), MirrorScores(s), t) == Holds(v, i, s, t)
  {
    var f := i.features;
    var m := MirrorFeatures(f);
    RatioOdd(f.ema.slope, f.lastClose);
    RatioOdd(f.ema.fast - f.ema.slow, f.lastClose);
    assert m.ema.fast - m.ema.slow == -(f.ema.fast - f.ema.slow);
    RatioOdd(f.macd.histogram, f.lastClose);
    RatioOdd(f.macd.histogram, if f.atr == 0.0 then f.lastClose else f.atr);
  }

  lemma {:induction false} ApplyingMirrors(tags: seq<Veto>, i: Input, s: Scores, t: Thresholds)
    ensures Applying(tags, MirrorInput(i), MirrorScores(s), t) == Applying(tags, i, s, t)
  {
    if tags != [] {
      VetoMirrors(tags[0], i, s, t);
      ApplyingMirrors(tags[1..], i, s, t);
    }
  }

  lemma BaseMirrors(s: Scores, w: real, c: real)
    ensures BaseScore(MirrorScores(s), w, -c) == -BaseScore(s, w, c)
  {
    assert (-s.volume) * w == -(s.volume * w);
  }

  lemma TotalMirrors(s: Scores, w: real, c: real)
    ensures TotalScore(BaseScore(MirrorScores(s), w, -c), RiskPenalty(s))
         == -TotalScore(BaseScore(s, w, c), RiskPenalty(s))
  {
    var base := BaseScore(s, w, c);
    BaseMirrors(s, w, c);
    assert Penalised(-base, RiskPenalty(s)) == -Penalised(base, RiskPenalty(s));
    Round4Odd(Penalised(base, RiskPenalty(s)));
  }

  lemma RoundScoresMirror(s: Scores)
    ensures RoundScores(MirrorScores(s)) == MirrorScores(RoundScores(s))
  {
    Round4Odd(s.trend);
    Round4Odd(s.momentum);
    Round4Odd(s.volatility);
    Round4Odd(s.volume);
  }

  lemma DecisionMirrors(i: Input, s: Scores, t: Thresholds, c: real)
    requires Sound(t)
    ensures Decide(MirrorInput(i), MirrorScores(s), t, -c) == MirrorEvaluation(Decide(i, s, t, c))
  {
    hide TotalScore, BaseScore, RoundScores, Holds;
    TotalMirrors(s, t.volumeConfirmWeight, c);
    RoundScoresMirror(s);
    ApplyingMirrors(FILTERS + [NoTrendAlignment], i, s, t);
    assert VetoList(MirrorInput(i), MirrorScores(s), t) == VetoList(i, s, t);
  }

  /** Turning the market upside down swaps LONG and SHORT, negates the total and every module score, and
      keeps confidence, vetoes, risk scores and risk filters. */
  lemma MirrorAntisymmetry(i: Input)
    requires VolumeUnsigned(i.features)
    ensures Evaluate(MirrorInput(i)) == MirrorEvaluation(Evaluate(i))
  {
    ScoresMirror(i.features);
    ContextMirrors(i.context);
    TablesSound(GetSignalProfile(i.profileName), i.horizon);
    DecisionMirrors(i, ModuleScores(i.features), ThresholdsFor(i), ContextScore(i.context));
  }

  /** The flag as `volumeSnapshot` computes it. */
  predicate SnapshotVolume(f: Features) { f.volume.abnormal <==> Abs(f.volume.zScore) >= 1.5 }

  lemma NegativeVolumeShows(f: Features)
    requires SnapshotVolume(f) && !VolumeUnsigned(f)
    ensures Round4(VolumeModule(MirrorFeatures(f))) != -Round4(VolumeModule(f))
  {
    var up, down := VolumeModule(f), VolumeModule(MirrorFeatures(f));
    assert Abs(up + down) >= 0.17;
    Round4Near(up);
    Round4Near(down);
  }

  /** On the feature snapshots of the program the condition is exact: the mirror law holds for an input if
      and only if its abnormal volume, if any, has a z-score that is not negative. */
  lemma MirrorExactly(i: Input)
    requires SnapshotVolume(i.features)
    ensures Evaluate(MirrorInput(i)) == MirrorEvaluation(Evaluate(i)) <==> VolumeUnsigned(i.features)
  {
    if VolumeUnsigned(i.features) {
      MirrorAntisymmetry(i);
    } else {
      NegativeVolumeShows(i.features);
      assert Evaluate(MirrorInput(i)).scores.volume == Round4(VolumeModule(MirrorFeatures(i.features)));
      assert Evaluate(i).scores.volume == Round4(VolumeModule(i.features));
    }
  }

  // ----- what an emitted direction says about the modules

  function Signed(d: Direction, x: real): real
    requires d != NO_SIGNAL
  {
    if d.LONG? then x else -x
  }

  lemma ConfidenceCap(total: real, offset: real)
    ensures 0.0 <= RawConfidence(total, offset) <= 0.9
  {
    var x := Clamp(Abs(total) * 0.76 + offset, 0.0, 0.9);
    Round4Monotone(0.0, x);
    Round4Monotone(x, 0.9);
    HalfAwayFixes(0);
    HalfAwayFixes(9000);
  }

  /** The verdict and the confidence agree: there is no direction exactly when the confidence is zero, and a
      confidence that is not zero reaches the minimum of the profile. */
  lemma ConfidenceDecides(i: Input)
    ensures var e := Evaluate(i);
            && (e.direction == NO_SIGNAL <==> e.confidence == 0.0)
            && (e.direction != NO_SIGNAL ==> ThresholdsFor(i).minConfidence <= e.confidence <= 0.9)
  {
    TablesSound(GetSignalProfile(i.profileName), i.horizon);
    DecisionConfidence(i, ModuleScores(i.features), ThresholdsFor(i), ContextScore(i.context));
  }

  lemma DecisionConfidence(i: Input, s: Scores, t: Thresholds, c: real)
    requires Sound(t)
    ensures var e := Decide(i, s, t, c);
            && (e.direction == NO_SIGNAL <==> e.confidence == 0.0)
            && (e.direction != NO_SIGNAL ==> t.minConfidence <= e.confidence <= 0.9)
  {
    ConfidenceCap(TotalScore(BaseScore(s, t.volumeConfirmWeight, c), RiskPenalty(s)), ConfidenceOffset(i, s));
  }

  /** The volume weights of the profiles. */
  predicate VolumeWeight(w: real) { w == 0.08 || w == 0.1 || w == 0.12 }

  /** Without a trend the other modules reach at most 0.444 unless momentum is strong, against the trend at
      most 0.453, and without momentum at most 0.531 against the volume: all below the lowest threshold. */
  lemma WeakScoresStayBelow(trend: real, momentum: real, volatility: real, volume: real, w: real, c: real)
    requires trend == 0.0 || 0.35 <= Abs(trend) <= 1.0
    requires Abs(momentum) <= 1.0 && (volatility == 0.0 || Abs(volatility) <= 0.65)
    requires (volume == 0.0 || Abs(volume) <= 0.9) && Abs(c) <= 0.08 && VolumeWeight(w)
    requires trend * 0.36 + momentum * 0.3 + volatility * 0.14 + volume * w + c >= 0.5999
    ensures trend >= 0.35 || (trend == 0.0 && momentum >= 0.55)
    ensures momentum == 0.0 ==> volume >= 0.0
  {
  }

  lemma StrongLong(s: Scores, w: real, c: real)
    requires InRange(s) && Abs(c) <= 0.08 && VolumeWeight(w)
    requires BaseScore(s, w, c) >= 0.5999
    ensures s.trend >= 0.35 || (s.trend == 0.0 && s.momentum >= 0.55)
    ensures s.momentum == 0.0 ==> s.volume >= 0.0
  {
    hide Abs, VolumeWeight;
    WeakScoresStayBelow(s.trend, s.momentum, s.volatility, s.volume, w, c);
  }

  lemma MirrorInRange(s: Scores)
    requires InRange(s)
    ensures InRange(MirrorScores(s))
  {
  }

  lemma StrongScores(s: Scores, w: real, c: real, d: Direction)
    requires InRange(s) && Abs(c) <= 0.08 && VolumeWeight(w) && d != NO_SIGNAL
    requires Signed(d, BaseScore(s, w, c)) >= 0.5999
    ensures Signed(d, s.trend) >= 0.35 || (s.trend == 0.0 && Signed(d, s.momentum) >= 0.55)
    ensures s.momentum == 0.0 ==> Signed(d, s.volume) >= 0.0
  {
    hide BaseScore, InRange, VolumeWeight;
    if d.LONG? {
      StrongLong(s, w, c);
    } else {
      BaseMirrors(s, w, c);
      MirrorInRange(s);
      StrongLong(MirrorScores(s), w, -c);
    }
  }

  /** What a total beyond the lowest threshold requires of the module scores, on the side of `d`. */
  lemma StrongTotal(s: Scores, w: real, c: real, d: Direction)
    requires InRange(s) && Abs(c) <= 0.08 && VolumeWeight(w) && d != NO_SIGNAL
    requires Signed(d, TotalScore(BaseScore(s, w, c), RiskPenalty(s))) >= 0.6
    ensures Signed(d, s.trend) >= 0.35 || (s.trend == 0.0 && Signed(d, s.momentum) >= 0.55)
    ensures s.momentum == 0.0 ==> Signed(d, s.volume) >= 0.0
  {
    hide TotalScore, BaseScore, RiskPenalty, InRange, VolumeWeight;
    PenaltyInRange(s);
    StrongBase(BaseScore(s, w, c), RiskPenalty(s));
    StrongScores(s, w, c, d);
  }

  lemma EmittedScores(i: Input, s: Scores, t: Thresholds, c: real)
    requires InRange(s) && Sound(t) && Abs(c) <= 0.08
    requires Decide(i, s, t, c).direction != NO_SIGNAL
    ensures var d := Decide(i, s, t, c).direction;
            && Signed(d, Decide(i, s, t, c).totalScore) >= t.longThreshold
            && (Signed(d, s.trend) >= 0.35 || (s.trend == 0.0 && Signed(d, s.momentum) >= 0.55))
            && (s.momentum == 0.0 ==> Signed(d, s.volume) >= 0.0)
  {
    EmittedTotal(i, s, t, c);
    StrongTotal(s, t.volumeConfirmWeight, c, Decide(i, s, t, c).direction);
  }

  lemma EmittedTotal(i: Input, s: Scores, t: Thresholds, c: real)
    requires Sound(t) && Decide(i, s, t, c).direction != NO_SIGNAL
    ensures var d := Decide(i, s, t, c).direction;
            Signed(d, TotalScore(BaseScore(s, t.volumeConfirmWeight, c), RiskPenalty(s))) >= t.longThreshold
  {
  }

  lemma AlignedScores(i: Input, s: Scores, t: Thresholds, d: Direction)
    requires forall v :: !Holds(v, i, s, t)
    requires d != NO_SIGNAL && t.minTrendAbs > 0.0
    requires s.volatility == VolatilityModule(i.features, s.trend, s.momentum)
    requires Signed(d, s.trend) >= 0.35 || (s.trend == 0.0 && Signed(d, s.momentum) >= 0.55)
    requires s.momentum == 0.0 ==> Signed(d, s.volume) >= 0.0
    ensures Signed(d, s.trend) >= 0.35 && Signed(d, s.volatility) >= 0.18
    ensures Signed(d, s.momentum) >= 0.0 && Signed(d, s.volume) >= 0.0
  {
    assert !Holds(NoTrendAlignment, i, s, t);
    assert !Holds(TrendAgainstMomentum, i, s, t);
    assert !Holds(ModulesNotAligned, i, s, t);
    assert !Holds(VolatilityAgainstTrend, i, s, t);
    assert !Holds(TooQuiet, i, s, t);
  }

  lemma EmittedUnvetoed(i: Input, s: Scores, t: Thresholds, c: real)
    requires Decide(i, s, t, c).direction != NO_SIGNAL
    ensures Decide(i, s, t, c).vetoes == [] && forall v :: !Holds(v, i, s, t)
    ensures var r := Decide(i, s, t, c).riskFilters;
            r.volatility != Block && r.chop != Block && r.conflict != Block
    ensures (i.dataQuality == Ok || i.dataQuality == Conflicted) && !i.context.marketEventRiskFlag
  {
    assert VetoList(i, s, t) == [];
    assert !Holds(TooQuiet, i, s, t);
    assert !Holds(Chop, i, s, t);
    assert !Holds(StaleData, i, s, t);
    assert !Holds(InsufficientData, i, s, t);
    assert !Holds(EventRisk, i, s, t);
  }

  /** Under every profile and horizon, a LONG (SHORT symmetrically) means: no veto, trend at least 0.35,
      volatility at least 0.18, momentum and volume not against it, no blocking risk filter but possibly
      freshness, and data that is neither stale nor insufficient. */
  lemma EmittedIsAligned(i: Input)
    requires Evaluate(i).direction != NO_SIGNAL
    ensures var e := Evaluate(i); var s := ModuleScores(i.features); var d := e.direction;
            && e.vetoes == [] && Signed(d, e.totalScore) >= ThresholdsFor(i).longThreshold
            && Signed(d, s.trend) >= 0.35 && Signed(d, s.volatility) >= 0.18
            && Signed(d, s.momentum) >= 0.0 && Signed(d, s.volume) >= 0.0
            && e.riskFilters.volatility != Block && e.riskFilters.chop != Block && e.riskFilters.conflict != Block
            && (e.riskFilters.dataFreshness == Pass <==> i.dataQuality == Ok)
            && (i.dataQuality == Ok || i.dataQuality == Conflicted)
            && !i.context.marketEventRiskFlag
  {
    var s, t, c := ModuleScores(i.features), ThresholdsFor(i), ContextScore(i.context);
    ScoresInRange(i.features);
    TablesSound(GetSignalProfile(i.profileName), i.horizon);
    EmittedUnvetoed(i, s, t, c);
    EmittedScores(i, s, t, c);
    AlignedScores(i, s, t, Evaluate(i).direction);
  }

  const CONFLICTED: Input := Input(
    FiveMinutes,
    Features(100.0, Returns(Some(0.01), Some(0.01), Some(0.01)), Ema(101.0, 99.0, 1.0), 60.0, Macd(1.0, 1.0),
             Bollinger(0.02, 0.75, false, true), 0.5, NormalVolatility, Volume(3.0, true)),
    Conflicted, Context(None, None, Neutral, false), [], Some(Balanced))

  lemma ConflictedScores()
    ensures ModuleScores(CONFLICTED.features) == Scores(1.0, 1.0, 0.65, 0.9, 0.0, 0.0)
  {
  }

  lemma ConflictedVeto(v: Veto)
    ensures !Holds(v, CONFLICTED, Scores(1.0, 1.0, 0.65, 0.9, 0.0, 0.0), ThresholdsOf(Balanced, FiveMinutes))
  {
  }

  /** Data marked "conflicted" is not vetoed: this input is emitted LONG although its freshness filter blocks.
      By EmittedIsAligned no other status than "ok" and "conflicted" can be emitted. */
  lemma ConflictedDataIsEmitted()
    ensures Evaluate(CONFLICTED).direction == LONG && Evaluate(CONFLICTED).riskFilters.dataFreshness == Block
  {
    var s, t := Scores(1.0, 1.0, 0.65, 0.9, 0.0, 0.0), ThresholdsOf(Balanced, FiveMinutes);
    hide ModuleScores, Holds, VetoList, TotalScore, RawConfidence, BuildRiskFilters;
    ConflictedScores();
    forall v
      ensures !Holds(v, CONFLICTED, s, t)
    {
      ConflictedVeto(v);
    }
    EmptyList([], VetoList(CONFLICTED, s, t));
    ConflictedBase();
    StrongVerdict(0.841);
    FreshnessBlocks(CONFLICTED, s, t);
  }

  lemma ConflictedBase()
    ensures var s := Scores(1.0, 1.0, 0.65, 0.9, 0.0, 0.0);
            BaseScore(s, 0.1, 0.0) == 0.841 && RiskPenalty(s) == 0.0 && ConfidenceOffset(CONFLICTED, s) == 0.0
  {
  }

  lemma StrongVerdict(base: real)
    requires 0.84 <= base <= 1.0
    ensures TotalScore(base, 0.0) >= 0.83 && RawConfidence(TotalScore(base, 0.0), 0.0) >= 0.6
  {
    Round4Near(Penalised(base, 0.0));
    Round4Near(Clamp(Abs(TotalScore(base, 0.0)) * 0.76 + 0.0, 0.0, 0.9));
  }

  lemma FreshnessBlocks(i: Input, s: Scores, t: Thresholds)
    requires i.dataQuality != Ok
    ensures BuildRiskFilters(i, s, [], t).dataFreshness == Block
  {
  }
}
