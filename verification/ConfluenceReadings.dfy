/** What the scores of the confluence engine read from the market, which way they point, and how far a verdict can
    move when one reading changes. */
module ConfluenceReadings {
  import opened Options
  import opened Profiles
  import opened Rounding
  import opened Confluence
  import opened ConfluenceLaws

  // ----- the direction of each module

  /** The trend points up exactly when the fast average stands above the slow one, both rise, and the price stands above
      the slow one, each by its margin; it points down exactly in the reflected case. */
  lemma TrendPoints(f: Features)
    ensures TrendModule(f) > 0.0 <==>
              && Ratio(f.ema.fast - f.ema.slow, f.lastClose) > 0.00035 && Ratio(f.ema.slope, f.lastClose) > 0.00004
              && Ratio(f.lastClose - f.ema.slow, f.lastClose) > 0.0002
    ensures TrendModule(f) < 0.0 <==>
              && Ratio(f.ema.fast - f.ema.slow, f.lastClose) < -0.00035 && Ratio(f.ema.slope, f.lastClose) < -0.00004
              && Ratio(f.lastClose - f.ema.slow, f.lastClose) < -0.0002
  {
    hide Ratio;
  }

  /** With wider margins a rising trend is never scored lower. */
  lemma TrendGrows(f: Features, g: Features)
    requires TrendModule(f) > 0.0
    requires Ratio(f.ema.fast - f.ema.slow, f.lastClose) <= Ratio(g.ema.fast - g.ema.slow, g.lastClose)
    requires Ratio(f.ema.slope, f.lastClose) <= Ratio(g.ema.slope, g.lastClose)
    requires Ratio(f.lastClose - f.ema.slow, f.lastClose) <= Ratio(g.lastClose - g.ema.slow, g.lastClose)
    ensures TrendModule(g) >= TrendModule(f)
  {
    hide Ratio;
  }

  /** A trend whose three readings each reach their scale is full. */
  lemma TrendSaturates(f: Features)
    requires Ratio(f.ema.fast - f.ema.slow, f.lastClose) >= 0.0028 && Ratio(f.ema.slope, f.lastClose) >= 0.0008
    requires Ratio(f.lastClose - f.ema.slow, f.lastClose) >= 0.003
    ensures TrendModule(f) == 1.0
  {
    hide Ratio;
  }

  function Move(o: Option<real>): real { o.GetOr(0.0) }

  predicate MovesAtMost(a: Returns, b: Returns) {
    && Move(a.oneMinute) <= Move(b.oneMinute) && Move(a.threeMinute) <= Move(b.threeMinute)
    && Move(a.fiveMinute) <= Move(b.fiveMinute)
  }

  /** The MACD reads full when histogram and slope agree, a quarter of the histogram's sign when they do not, and
      nothing from a histogram of zero. */
  lemma MacdReads(m: Macd)
    ensures MacdScore(m) == 1.0 <==> m.histogram > 0.0 && m.histogramSlope > 0.0
    ensures MacdScore(m) == -1.0 <==> m.histogram < 0.0 && m.histogramSlope < 0.0
    ensures MacdScore(m) == 0.25 <==> m.histogram > 0.0 && m.histogramSlope <= 0.0
    ensures MacdScore(m) == -0.25 <==> m.histogram < 0.0 && m.histogramSlope >= 0.0
    ensures MacdScore(m) == 0.0 <==> m.histogram == 0.0
  {
  }

  /** Higher returns and a stronger MACD never lower the momentum. */
  lemma MomentumGrows(f: Features, g: Features)
    requires MovesAtMost(f.moves, g.moves) && MacdScore(f.macd) <= MacdScore(g.macd)
    ensures MomentumModule(f) <= MomentumModule(g)
  {
    hide MacdScore;
  }

  /** The weights: returns that reach their scales carry 0.62, the MACD 0.38. */
  lemma MomentumWeights(f: Features)
    requires Move(f.moves.oneMinute) >= 0.0012 && Move(f.moves.threeMinute) >= 0.003
    requires Move(f.moves.fiveMinute) >= 0.005
    ensures f.macd.histogram > 0.0 && f.macd.histogramSlope > 0.0 ==> MomentumModule(f) == 1.0
    ensures f.macd.histogram == 0.0 ==> MomentumModule(f) == 0.62
    ensures f.macd.histogram < 0.0 && f.macd.histogramSlope < 0.0 ==> MomentumModule(f) == 0.24
  {
  }

  /** Each return counts by its own scale: one that reaches it alone moves the momentum by a third of 0.62. */
  lemma EachReturnCounts(f: Features)
    requires f.macd.histogram == 0.0
    ensures f.moves == Returns(Some(0.0012), None, None) ==> MomentumModule(f) * 3.0 == 0.62
    ensures f.moves == Returns(None, Some(0.003), None) ==> MomentumModule(f) * 3.0 == 0.62
    ensures f.moves == Returns(None, None, Some(0.005)) ==> MomentumModule(f) * 3.0 == 0.62
  {
  }

  predicate Quiet(f: Features) { f.regime.LowVolatility? || f.bollinger.squeeze }

  /** Volatility breaks out up above the band, down below it, and otherwise leans with the stronger of momentum and
      trend; a quiet market has none. */
  lemma VolatilityPoints(f: Features, trend: real, momentum: real)
    ensures Quiet(f) ==> VolatilityModule(f, trend, momentum) == 0.0
    ensures VolatilityModule(f, trend, momentum) == 0.65 <==>
              !Quiet(f) && f.bollinger.expansion && f.bollinger.bandPosition > 0.68
    ensures VolatilityModule(f, trend, momentum) == -0.65 <==>
              !Quiet(f) && f.bollinger.expansion && f.bollinger.bandPosition < 0.32
    ensures !Quiet(f) && !f.bollinger.expansion && Abs(momentum) >= Abs(trend) ==>
              Sign(VolatilityModule(f, trend, momentum)) == Sign(momentum)
    ensures !Quiet(f) && !f.bollinger.expansion && Abs(momentum) < Abs(trend) ==>
              Sign(VolatilityModule(f, trend, momentum)) == Sign(trend)
    ensures !Quiet(f) && !f.bollinger.expansion && (trend != 0.0 || momentum != 0.0) ==>
              Abs(VolatilityModule(f, trend, momentum)) == if f.regime.NormalVolatility? then 0.35 else 0.18
  {
  }

  /** Volume points where the five-minute return points, and counts exactly when it is abnormal or clearly above
      average: fully when abnormal, mildly otherwise. */
  lemma VolumePoints(f: Features)
    ensures VolumeModule(f) != 0.0 <==> Move(f.moves.fiveMinute) != 0.0 && (f.volume.abnormal || f.volume.zScore > 0.4)
    ensures VolumeModule(f) != 0.0 ==> Sign(VolumeModule(f)) == Sign(Move(f.moves.fiveMinute))
    ensures Abs(VolumeModule(f)) >= 0.55 <==> Move(f.moves.fiveMinute) != 0.0 && f.volume.abnormal
    ensures Abs(VolumeModule(f)) == 0.24 <==>
              Move(f.moves.fiveMinute) != 0.0 && !f.volume.abnormal && f.volume.zScore > 0.4
  {
  }

  /** More abnormal volume under a rise is never scored lower, and a z-score of 2.9167 or more scores fully. */
  lemma VolumeGrows(f: Features, g: Features)
    requires f.volume.abnormal && g.volume.abnormal && f.volume.zScore <= g.volume.zScore
    requires Move(f.moves.fiveMinute) > 0.0 && Move(g.moves.fiveMinute) > 0.0
    ensures VolumeModule(f) <= VolumeModule(g)
    ensures g.volume.zScore >= 2.9167 ==> VolumeModule(g) == 0.9
    ensures g.volume.zScore == 1.5 ==> VolumeModule(g) == 0.73
  {
  }

  // ----- the two risks

  function Lean(trend: real, momentum: real): real { trend * 0.55 + momentum * 0.45 }

  /** In a market that leans up, a higher RSI or band position never lowers the reversal risk; in one that leans
      down, it never raises it. */
  lemma StretchRaisesRisk(f: Features, g: Features, trend: real, momentum: real)
    requires f.rsi <= g.rsi && f.bollinger.bandPosition <= g.bollinger.bandPosition
    ensures Lean(trend, momentum) > 0.0 ==>
              MeanReversionRisk(f, trend, momentum) <= MeanReversionRisk(g, trend, momentum)
    ensures Lean(trend, momentum) < 0.0 ==>
              MeanReversionRisk(f, trend, momentum) >= MeanReversionRisk(g, trend, momentum)
  {
  }

  /** The ends and the steps: no risk exactly when neither RSI nor band is stretched on the market's own side, 0.8
      exactly when both are stretched far; in a market without a lean only an extreme RSI counts. */
  lemma ReversalReads(f: Features, trend: real, momentum: real)
    ensures Lean(trend, momentum) > 0.0 ==>
              var risk, band := MeanReversionRisk(f, trend, momentum), f.bollinger.bandPosition;
              && (risk == 0.0 <==> f.rsi <= 66.0 && band <= 0.82)
              && (risk == 0.8 <==> f.rsi > 72.0 && band > 0.92)
              && (f.rsi > 72.0 && band <= 0.82 ==> risk == 0.45) && (f.rsi <= 66.0 && band > 0.92 ==> risk == 0.35)
    ensures Lean(trend, momentum) < 0.0 ==>
              var risk, band := MeanReversionRisk(f, trend, momentum), f.bollinger.bandPosition;
              && (risk == 0.0 <==> f.rsi >= 34.0 && band >= 0.18)
              && (risk == 0.8 <==> f.rsi < 28.0 && band < 0.08)
              && (f.rsi < 28.0 && band >= 0.18 ==> risk == 0.45) && (f.rsi >= 34.0 && band < 0.08 ==> risk == 0.35)
    ensures Lean(trend, momentum) == 0.0 ==>
              MeanReversionRisk(f, trend, momentum) == if f.rsi > 70.0 || f.rsi < 30.0 then 0.25 else 0.0
  {
  }

  /** The signs of chop, in the order of the source. */
  function ChopSigns(f: Features, trend: real, momentum: real): (signs: seq<bool>)
    ensures |signs| == 6
  {
    [Move(f.moves.oneMinute) * Move(f.moves.fiveMinute) < 0.0,
     trend * momentum < 0.0,
     -0.00004 < Ratio(f.ema.slope, f.lastClose) < 0.00004,
     -0.00003 < Ratio(f.macd.histogramSlope, f.lastClose) < 0.00003,
     f.bollinger.bandwidth < 0.006 || f.regime.LowVolatility?,
     Move(f.moves.threeMinute) * Move(f.moves.fiveMinute) < 0.0]
  }

  lemma OpposedProduct(x: real, y: real)
    ensures Opposed(x, y) <==> x * y < 0.0
  {
    if x > 0.0 && y > 0.0 {
      ProductPositive(x, y);
    } else if x < 0.0 && y < 0.0 {
      ProductPositive(-x, -y);
      assert (-x) * (-y) == x * y;
    } else if x > 0.0 && y < 0.0 {
      ProductPositive(x, -y);
      assert x * (-y) == -(x * y);
    } else if x < 0.0 && y > 0.0 {
      ProductPositive(-x, y);
      assert (-x) * y == -(x * y);
    }
  }

  lemma ProductPositive(x: real, y: real)
    requires x > 0.0 && y > 0.0
    ensures x * y > 0.0
  {
  }

  /** More signs of chop never lower the risk; there is none exactly when there is no sign; and a single sign counts as
      much as the source gives it. */
  lemma ChopReads(f: Features, trend: real, momentum: real)
    ensures var s, risk := ChopSigns(f, trend, momentum), ChopRiskScore(f, trend, momentum);
            && (risk == 0.0 <==> s == [false, false, false, false, false, false])
            && (s == [true, false, false, false, false, false] ==> risk == 0.28)
            && (s == [false, true, false, false, false, false] ==> risk == 0.34)
            && (s == [false, false, true, false, false, false] ==> risk == 0.2)
            && (s == [false, false, false, true, false, false] ==> risk == 0.16)
            && (s == [false, false, false, false, true, false] ==> risk == 0.28)
            && (s == [false, false, false, false, false, true] ==> risk == 0.18)
  {
    hide Opposed, Ratio;
    OpposedProduct(Move(f.moves.oneMinute), Move(f.moves.fiveMinute));
    OpposedProduct(trend, momentum);
    OpposedProduct(Move(f.moves.threeMinute), Move(f.moves.fiveMinute));
  }

  lemma ChopGrows(f: Features, trend: real, momentum: real, g: Features, trend2: real, momentum2: real)
    requires forall k :: 0 <= k < 6 && ChopSigns(f, trend, momentum)[k] ==> ChopSigns(g, trend2, momentum2)[k]
    ensures ChopRiskScore(f, trend, momentum) <= ChopRiskScore(g, trend2, momentum2)
  {
    hide Opposed, Ratio;
    var s, t := ChopSigns(f, trend, momentum), ChopSigns(g, trend2, momentum2);
    assert (s[0] ==> t[0]) && (s[1] ==> t[1]) && (s[2] ==> t[2]) && (s[3] ==> t[3]) && (s[4] ==> t[4])
           && (s[5] ==> t[5]);
    OpposedProduct(Move(f.moves.oneMinute), Move(f.moves.fiveMinute));
    OpposedProduct(trend, momentum);
    OpposedProduct(Move(f.moves.threeMinute), Move(f.moves.fiveMinute));
    OpposedProduct(Move(g.moves.oneMinute), Move(g.moves.fiveMinute));
    OpposedProduct(trend2, momentum2);
    OpposedProduct(Move(g.moves.threeMinute), Move(g.moves.fiveMinute));
  }

  // ----- context

  function MacroRank(m: Macro): int { match m case RiskOff => -1 case RiskOn => 1 case _ => 0 }

  predicate ContextAtMost(c: Context, d: Context) {
    && Move(c.newsScore) <= Move(d.newsScore) && Move(c.xSignalScore) <= Move(d.xSignalScore)
    && MacroRank(c.macro) <= MacroRank(d.macro)
  }

  /** Better news, sentiment and macro state never lower the context score; without any of them it is zero; each
      counts by its own weight until the cap. */
  lemma ContextReads(c: Context, d: Context)
    ensures ContextAtMost(c, d) ==> ContextScore(c) <= ContextScore(d)
    ensures c.newsScore == None && c.xSignalScore == None ==> ContextScore(c) * 25.0 == MacroRank(c.macro) as real
    ensures c.newsScore == Some(0.1) && c.xSignalScore == None && MacroRank(c.macro) == 0 ==> ContextScore(c) == 0.018
    ensures c.newsScore == None && c.xSignalScore == Some(0.1) && MacroRank(c.macro) == 0 ==> ContextScore(c) == 0.012
    ensures c.newsScore == Some(1.0) && c.xSignalScore == None && MacroRank(c.macro) == 0 ==> ContextScore(c) == 0.08
  {
  }

  // ----- vetoes on real scores

  lemma VolumeIsNotOpposed(i: Input, s: Scores, t: Thresholds)
    requires s.volume == VolumeModule(i.features)
    ensures !Holds(PriceAgainstVolume, i, s, t)
  {
    hide VolumeModule;
    VolumePoints(i.features);
  }

  lemma EvaluatedVetoes(i: Input, v: Veto)
    ensures v in Evaluate(i).vetoes <==> Holds(v, i, ModuleScores(i.features), ThresholdsFor(i))
  {
    hide ThresholdsOf, ModuleScores, Holds, TotalScore, RawConfidence, RoundScores, BuildRiskFilters, ContextScore;
  }

  /** Volume is scored with the sign of the five-minute return, so the veto on price against volume never applies. */
  lemma PriceNeverOpposesVolume(i: Input)
    ensures PriceAgainstVolume !in Evaluate(i).vetoes
  {
    hide Evaluate, ThresholdsOf, Holds, TrendModule, MomentumModule, VolatilityModule, VolumeModule, MeanReversionRisk,
      ChopRiskScore;
    EvaluatedVetoes(i, PriceAgainstVolume);
    VolumeIsNotOpposed(i, ModuleScores(i.features), ThresholdsFor(i));
  }

  /** The reversal veto adds nothing but for a market with a trend and no momentum at all: with an opposed momentum the
      conflict veto applies as well, with an agreeing one the reversal veto does not. */
  lemma ReversalVetoNeedsDisagreement(i: Input, s: Scores, t: Thresholds)
    ensures Holds(Reversal, i, s, t) ==> s.trend != 0.0 && (s.momentum == 0.0 || Holds(TrendAgainstMomentum, i, s, t))
    ensures s.trend > 0.0 && s.momentum > 0.0 ==> !Holds(Reversal, i, s, t)
    ensures s.reversalRisk >= 0.45 && s.trend > 0.0 && s.momentum <= 0.0 ==> Holds(Reversal, i, s, t)
  {
  }

  /** What each of the remaining vetoes forbids, read from the market. */
  lemma VetoesRead(i: Input, s: Scores, t: Thresholds)
    ensures Holds(TrendAgainstMomentum, i, s, t) <==> s.trend * s.momentum < 0.0
    ensures Holds(PriceAgainstVolume, i, s, t) <==> Move(i.features.moves.fiveMinute) * s.volume < 0.0
    ensures Holds(ModulesNotAligned, i, s, t) <==>
              && s.trend != 0.0 && s.momentum != 0.0 && s.volume != 0.0
              && (s.trend * s.momentum < 0.0 || s.trend * s.volume < 0.0 || s.momentum * s.volume < 0.0)
    ensures Holds(NoParticipation, i, s, t) <==>
              && Move(i.features.moves.fiveMinute) != 0.0 && i.features.volume.zScore < -0.4
              && (s.momentum > 0.2 || s.momentum < -0.2)
    ensures Holds(NoTrendAlignment, i, s, t) <==>
              -t.minTrendAbs < s.trend < t.minTrendAbs && !(-0.55 < s.momentum < 0.55)
    ensures Holds(NoTrendAlignment, i, s, t) && s.trend == TrendModule(i.features) && t.minTrendAbs <= 0.35 ==>
              s.trend == 0.0
    ensures Holds(TooQuiet, i, s, t) <==> Quiet(i.features) || i.features.bollinger.bandwidth < t.minVolatilityBandwidth
  {
    hide TrendModule;
    OpposedProduct(s.trend, s.momentum);
    OpposedProduct(s.trend, s.volume);
    OpposedProduct(s.momentum, s.volume);
    OpposedProduct(Move(i.features.moves.fiveMinute), s.volume);
  }

  lemma RatioBelow(x: real, d: real, m: real)
    requires d > 0.0
    ensures Abs(Ratio(x, d)) < m <==> -m * d < x < m * d
    ensures Ratio(x, d) > m <==> x > m * d
  {
    var q := x / d;
    assert q * d == x;
    BelowProduct(q, m, d);
    BelowProduct(-q, m, d);
    BelowProduct(m, q, d);
    assert -q * d == -x && -m * d == -(m * d);
  }

  lemma BelowProduct(x: real, y: real, d: real)
    requires d > 0.0
    ensures x < y <==> x * d < y * d
  {
    if x < y {
      ProductPositive(y - x, d);
    } else if y < x {
      ProductPositive(x - y, d);
    }
  }

  predicate Hesitant(s: Scores, t: Thresholds) {
    -t.strongMomentumBypassAbs < s.momentum < t.strongMomentumBypassAbs
  }

  /** The trend is flat, at a positive price, when the slope and the gap of the averages are both small parts of the
      price and the momentum is not strong. */
  lemma FlatTrendReads(i: Input, s: Scores, t: Thresholds)
    requires i.features.lastClose > 0.0
    ensures var f := i.features;
            var gap := t.minTrendAbs * 0.0018;
            Holds(FlatTrend, i, s, t) <==>
              && Hesitant(s, t) && -t.minEmaSlopeRatio * f.lastClose < f.ema.slope < t.minEmaSlopeRatio * f.lastClose
              && -gap * f.lastClose < f.ema.fast - f.ema.slow < gap * f.lastClose
  {
    hide Ratio;
    RatioBelow(i.features.ema.slope, i.features.lastClose, t.minEmaSlopeRatio);
    RatioBelow(i.features.ema.fast - i.features.ema.slow, i.features.lastClose, t.minTrendAbs * 0.0018);
  }

  /** The MACD is flat, at a positive price, when its histogram is a small part of the price, or of the range when
      there is one, and the momentum is not strong. */
  lemma FlatMacdReads(i: Input, s: Scores, t: Thresholds)
    requires i.features.lastClose > 0.0 && i.features.atr >= 0.0
    ensures var close, atr, h, m :=
              i.features.lastClose, i.features.atr, i.features.macd.histogram, t.minMacdHistogramAtrRatio;
            Holds(FlatMacd, i, s, t) <==>
              Hesitant(s, t) && (-m * close < h < m * close || (atr > 0.0 && -m * atr < h < m * atr))
  {
    hide Ratio;
    RatioBelow(i.features.macd.histogram, i.features.lastClose, t.minMacdHistogramAtrRatio);
    if i.features.atr > 0.0 {
      RatioBelow(i.features.macd.histogram, i.features.atr, t.minMacdHistogramAtrRatio);
    }
  }

  /** A market moves too wildly when its band is wider than the limit, or its range larger than the limit's part of the
      price; and volume confirms when it reaches the minimum on either side. */
  lemma WildnessReads(i: Input, s: Scores, t: Thresholds)
    requires i.features.lastClose > 0.0
    ensures Holds(TooWild, i, s, t) <==>
              || i.features.bollinger.bandwidth > t.maxExtremeVolatilityBandwidth
              || i.features.atr > t.maxExtremeAtrRatio * i.features.lastClose
    ensures Holds(NoVolumeConfirmation, i, s, t) <==>
              Hesitant(s, t) && -t.minDirectionalVolumeScore < s.volume < t.minDirectionalVolumeScore
    ensures Holds(Chop, i, s, t) <==> !(s.chopRisk < t.maxChopRisk)
    ensures s.volatility == VolatilityModule(i.features, s.trend, s.momentum) ==>
              (Holds(VolatilityAgainstTrend, i, s, t) <==>
                 && s.volatility != 0.0
                 && (s.volatility * s.trend < 0.0 || (s.trend == 0.0 && s.volatility * s.momentum <= 0.0)))
  {
    RatioBelow(i.features.atr, i.features.lastClose, t.maxExtremeAtrRatio);
    hide Ratio;
    OpposedProduct(s.volatility, s.trend);
    OpposedProduct(s.volatility, s.momentum);
  }

  /** A veto of conflict: between trend, momentum, volatility and volume, or a given text that begins with those
      words. */
  predicate TellsConflict(v: Veto) {
    || v == TrendAgainstMomentum || v == VolatilityAgainstTrend || v == ModulesNotAligned || v == PriceAgainstVolume
    || v == NoParticipation || (v.FailClosed? && |v.text| >= 13 && v.text[..13] == "Conflict veto")
  }

  /** The filters for the state of the market tell the same story as the vetoes, and watch before they block. */
  lemma FiltersAgreeWithVetoes(i: Input)
    ensures var e, s := Evaluate(i), ModuleScores(i.features);
            && (e.riskFilters.dataFreshness == if i.dataQuality == Ok then Pass else Block)
            && (e.riskFilters.chop == Block <==> Chop in e.vetoes)
            && (e.riskFilters.chop == Watch <==> Chop !in e.vetoes && s.chopRisk > 0.38)
            && (e.riskFilters.chop == Pass <==> Chop !in e.vetoes && s.chopRisk <= 0.38)
            && (e.riskFilters.volatility == Block <==> Quiet(i.features))
            && (e.riskFilters.volatility == Block ==> TooQuiet in e.vetoes)
            && (e.riskFilters.volatility == Watch <==> !Quiet(i.features) && i.features.regime.HighVolatility?)
            && (e.riskFilters.volatility == Pass <==> !Quiet(i.features) && !i.features.regime.HighVolatility?)
            && (e.riskFilters.meanReversion == if s.reversalRisk > 0.35 then Watch else Pass)
  {
    hide ThresholdsOf, TrendModule, MomentumModule, VolatilityModule, VolumeModule, MeanReversionRisk, ChopRiskScore,
      VetoList, TotalScore, RawConfidence, RoundScores, ContextScore;
    var e, s, t := Evaluate(i), ModuleScores(i.features), ThresholdsFor(i);
    assert Chop in e.vetoes <==> Holds(Chop, i, s, t);
    assert TooQuiet in e.vetoes <==> Holds(TooQuiet, i, s, t);
  }

  /** The filters for confirmation: conflict blocks exactly when some veto tells of one; volume confirms exactly
      when it is abnormal under a moving price, and is missing exactly when it is not scored. */
  lemma ConfirmationReads(i: Input)
    ensures var e, s := Evaluate(i), ModuleScores(i.features);
            var blocked := exists v :: v in e.vetoes && TellsConflict(v);
            && (e.riskFilters.conflict == if blocked then Block else if s.chopRisk > 0.35 then Watch else Pass)
            && (e.riskFilters.volumeConfirmation == Missing <==> s.volume == 0.0)
            && (e.riskFilters.volumeConfirmation == Confirmed <==>
                  Move(i.features.moves.fiveMinute) != 0.0 && i.features.volume.abnormal)
  {
    hide ThresholdsOf, TrendModule, MomentumModule, VolatilityModule, VolumeModule, MeanReversionRisk, ChopRiskScore,
      VetoList, TotalScore, RawConfidence, RoundScores, ContextScore;
    VolumePoints(i.features);
    assert forall v :: IsConflict(v) <==> TellsConflict(v);
  }

  /** A rising market is marked for mean reversion exactly when RSI is above 72, or above 66 with the band above
      0.82. */
  lemma OverboughtIsWatched(i: Input)
    requires Lean(TrendModule(i.features), MomentumModule(i.features)) > 0.0
    ensures Evaluate(i).riskFilters.meanReversion == Watch <==>
              i.features.rsi > 72.0 || (i.features.rsi > 66.0 && i.features.bollinger.bandPosition > 0.82)
  {
    hide TrendModule, MomentumModule, ChopRiskScore, VolumeModule, VolatilityModule, VetoList, ThresholdsOf, TotalScore,
      RawConfidence, RoundScores, ContextScore;
  }

  // ----- when a side is emitted

  /** A side is emitted exactly when no veto applies, the total has crossed the threshold of that side, and the
      confidence that belongs to the total reaches the profile's minimum. */
  lemma EmitsExactly(i: Input)
    ensures var e, s, t := Evaluate(i), ModuleScores(i.features), ThresholdsFor(i);
            var raw := RawConfidence(e.totalScore, ConfidenceOffset(i, s));
            && (e.direction == LONG <==> e.vetoes == [] && e.totalScore >= t.longThreshold && raw >= t.minConfidence)
            && (e.direction == SHORT <==> e.vetoes == [] && e.totalScore <= -t.longThreshold && raw >= t.minConfidence)
            && (e.direction != NO_SIGNAL ==> e.confidence == raw)
  {
    hide ThresholdsOf, ModuleScores, RawConfidence, ConfidenceOffset, VetoList, TotalScore, BuildRiskFilters,
      RoundScores;
    TablesSound(GetSignalProfile(i.profileName), i.horizon);
  }

  /** Better data, lower risks, a stronger volume and a calmer regime never lower the confidence of a total, nor does a
      larger total. */
  lemma ConfidenceGrows(i: Input, s: Scores, total: real, j: Input, r: Scores, other: real)
    requires j.dataQuality.Ok? ==> i.dataQuality.Ok?
    requires i.features.regime.HighVolatility? ==> j.features.regime.HighVolatility?
    requires s.reversalRisk <= r.reversalRisk && s.chopRisk <= r.chopRisk && Abs(s.volume) >= Abs(r.volume)
    requires Abs(total) >= Abs(other)
    ensures RawConfidence(total, ConfidenceOffset(i, s)) >= RawConfidence(other, ConfidenceOffset(j, r))
  {
    hide Round4, Abs;
    var x := Clamp(Abs(total) * 0.76 + ConfidenceOffset(i, s), 0.0, 0.9);
    var y := Clamp(Abs(other) * 0.76 + ConfidenceOffset(j, r), 0.0, 0.9);
    Round4Monotone(y, x);
  }

  /** What each part of the confidence is worth, on a full score. */
  lemma ConfidenceParts(i: Input, s: Scores)
    requires s.reversalRisk == 0.0 && s.chopRisk == 0.0 && !i.features.regime.HighVolatility?
    ensures i.dataQuality.Ok? && Abs(s.volume) >= 0.5 ==> RawConfidence(1.0, ConfidenceOffset(i, s)) == 0.88
    ensures !i.dataQuality.Ok? && Abs(s.volume) >= 0.5 ==> RawConfidence(1.0, ConfidenceOffset(i, s)) == 0.76
    ensures i.dataQuality.Ok? && 0.0 < Abs(s.volume) < 0.5 ==> RawConfidence(1.0, ConfidenceOffset(i, s)) == 0.84
    ensures i.dataQuality.Ok? && s.volume == 0.0 ==> RawConfidence(1.0, ConfidenceOffset(i, s)) == 0.8
    ensures ConfidenceOffset(i.(features := i.features.(regime := HighVolatility)), s)
         == ConfidenceOffset(i.(features := i.features.(regime := NormalVolatility)), s) - 0.08
  {
    hide Round4;
    Round4Fixes(8800);
    Round4Fixes(7600);
    Round4Fixes(8400);
    Round4Fixes(8000);
  }

  /** What the two risks cost: a full reversal risk of 0.8 takes 0.096 from the score and 0.128 from the confidence,
      a full chop risk 0.16 and 0.18. */
  lemma RiskCosts(i: Input, s: Scores)
    ensures RiskPenalty(s.(reversalRisk := 0.8, chopRisk := 0.0)) == 0.096
    ensures RiskPenalty(s.(reversalRisk := 0.0, chopRisk := 1.0)) == 0.16
    ensures ConfidenceOffset(i, s.(reversalRisk := 0.0, chopRisk := 0.0))
         == ConfidenceOffset(i, s.(reversalRisk := 0.8, chopRisk := 0.0)) + 0.128
         == ConfidenceOffset(i, s.(reversalRisk := 0.0, chopRisk := 1.0)) + 0.18
  {
  }

  // ----- risk only hurts

  /** `r` is `s` with risks that are no lower. */
  predicate Riskier(r: Scores, s: Scores) {
    r == s.(reversalRisk := r.reversalRisk, chopRisk := r.chopRisk)
    && s.reversalRisk <= r.reversalRisk && s.chopRisk <= r.chopRisk
  }

  lemma RiskierVetoes(i: Input, s: Scores, j: Input, r: Scores, t: Thresholds)
    requires Riskier(r, s) && j == i.(features := i.features.(rsi := j.features.rsi))
    ensures VetoList(j, r, t) == [] ==> VetoList(i, s, t) == []
  {
    hide VetoList;
    forall v | v in VetoList(i, s, t)
      ensures v in VetoList(j, r, t)
    {
      RiskierVeto(v, i, s, j, r, t);
    }
    EmptyList(VetoList(j, r, t), VetoList(i, s, t));
  }

  lemma RiskierVeto(v: Veto, i: Input, s: Scores, j: Input, r: Scores, t: Thresholds)
    requires Riskier(r, s) && j == i.(features := i.features.(rsi := j.features.rsi)) && Holds(v, i, s, t)
    ensures Holds(v, j, r, t)
  {
  }

  lemma RiskierTotals(base: real, penalty: real, more: real)
    requires 0.0 <= penalty <= more <= 0.256 && Abs(TotalScore(base, more)) >= 0.6
    ensures TotalScore(base, more) >= 0.6 ==> TotalScore(base, penalty) >= TotalScore(base, more)
    ensures TotalScore(base, more) <= -0.6 ==> TotalScore(base, penalty) <= TotalScore(base, more)
  {
    StrongBase(base, more);
    hide Round4;
    if TotalScore(base, more) >= 0.6 {
      Round4Monotone(Penalised(base, more), Penalised(base, penalty));
    } else {
      Round4Monotone(Penalised(base, penalty), Penalised(base, more));
    }
  }

  lemma PenaltyGrows(s: Scores, r: Scores)
    requires Riskier(r, s)
    ensures RiskPenalty(s) <= RiskPenalty(r)
  {
  }

  /** For given other scores, what is emitted at higher risks is emitted at lower ones, on the same side, with a
      total at least as strong and a confidence at least as high. */
  lemma RiskOnlyHurts(i: Input, s: Scores, j: Input, r: Scores, t: Thresholds, c: real)
    requires Sound(t) && InRange(s) && InRange(r) && Riskier(r, s)
    requires j == i.(features := i.features.(rsi := j.features.rsi))
    requires Decide(j, r, t, c).direction != NO_SIGNAL
    ensures var safe, risky := Decide(i, s, t, c), Decide(j, r, t, c);
            && safe.direction == risky.direction && safe.confidence >= risky.confidence
            && Signed(risky.direction, safe.totalScore) >= Signed(risky.direction, risky.totalScore)
  {
    hide TotalScore, BaseScore, RiskPenalty, RawConfidence, ConfidenceOffset, InRange, VetoList, BuildRiskFilters,
      RoundScores;
    var w := t.volumeConfirmWeight;
    SameBase(s, r, w, c);
    PenaltyInRange(s);
    PenaltyInRange(r);
    PenaltyGrows(s, r);
    RiskierVetoes(i, s, j, r, t);
    var total, other := TotalScore(BaseScore(s, w, c), RiskPenalty(s)), TotalScore(BaseScore(r, w, c), RiskPenalty(r));
    assert Abs(other) >= 0.6;
    RiskierTotals(BaseScore(s, w, c), RiskPenalty(s), RiskPenalty(r));
    ConfidenceGrows(i, s, total, j, r, other);
  }

  lemma SameBase(s: Scores, r: Scores, w: real, c: real)
    requires Riskier(r, s)
    ensures BaseScore(s, w, c) == BaseScore(r, w, c)
  {
  }

  /** The same market with another RSI. */
  function WithRsi(i: Input, rsi: real): Input { i.(features := i.features.(rsi := rsi)) }

  lemma RsiReadsOnlyRisk(i: Input, rsi: real)
    ensures ModuleScores(WithRsi(i, rsi).features)
         == ModuleScores(i.features).(reversalRisk := ModuleScores(WithRsi(i, rsi).features).reversalRisk)
  {
    hide MeanReversionRisk, Clamp, Ratio;
  }

  /** Overbought only hurts a LONG, oversold only hurts a SHORT: with all else equal, a LONG emitted at some RSI is
      emitted at every lower one, and a SHORT at every higher one, with a total and a confidence at least as strong.
      */
  lemma StretchOnlyHurts(i: Input, rsi: real)
    ensures Evaluate(WithRsi(i, rsi)).direction == LONG && i.features.rsi <= rsi ==>
              && Evaluate(i).direction == LONG && Evaluate(i).totalScore >= Evaluate(WithRsi(i, rsi)).totalScore
              && Evaluate(i).confidence >= Evaluate(WithRsi(i, rsi)).confidence
    ensures Evaluate(WithRsi(i, rsi)).direction == SHORT && i.features.rsi >= rsi ==>
              && Evaluate(i).direction == SHORT && Evaluate(i).totalScore <= Evaluate(WithRsi(i, rsi)).totalScore
              && Evaluate(i).confidence >= Evaluate(WithRsi(i, rsi)).confidence
  {
    hide Evaluate, Decide, ModuleScores, InRange, ThresholdsOf, ContextScore, MeanReversionRisk;
    var j := WithRsi(i, rsi);
    var s, r := ModuleScores(i.features), ModuleScores(j.features);
    var t, c := ThresholdsFor(i), ContextScore(i.context);
    RsiReadsOnlyRisk(i, rsi);
    EvaluationIs(i);
    EvaluationIs(j);
    if Evaluate(j).direction != NO_SIGNAL {
      var d := Evaluate(j).direction;
      EmittedIsAligned(j);
      LeanFollows(s, d);
      RiskReads(i.features, s);
      RiskReads(j.features, r);
      if i.features.rsi <= rsi {
        StretchRaisesRisk(i.features, j.features, s.trend, s.momentum);
      }
      if rsi <= i.features.rsi {
        StretchRaisesRisk(j.features, i.features, s.trend, s.momentum);
      }
      ScoresInRange(i.features);
      ScoresInRange(j.features);
      TablesSound(GetSignalProfile(i.profileName), i.horizon);
      if (d.LONG? && i.features.rsi <= rsi) || (d.SHORT? && i.features.rsi >= rsi) {
        RiskOnlyHurts(i, s, j, r, t, c);
      }
    }
  }

  lemma RiskReads(f: Features, s: Scores)
    requires s == ModuleScores(f)
    ensures s.reversalRisk == MeanReversionRisk(f, s.trend, s.momentum)
  {
    hide TrendModule, MomentumModule, VolatilityModule, VolumeModule, ChopRiskScore, MeanReversionRisk;
  }

  lemma LeanFollows(s: Scores, d: Direction)
    requires d != NO_SIGNAL && Signed(d, s.trend) >= 0.35 && Signed(d, s.momentum) >= 0.0
    ensures d.LONG? ==> Lean(s.trend, s.momentum) > 0.0
    ensures d.SHORT? ==> Lean(s.trend, s.momentum) < 0.0
  {
  }

  lemma EvaluationIs(i: Input)
    ensures Evaluate(i) == Decide(i, ModuleScores(i.features), ThresholdsFor(i), ContextScore(i.context))
  {
  }

  /** A LONG is a market that rises: the fast average above the slow one, both rising, the price above them; a SHORT is
      the reflected market. */
  lemma EmittedFollowsTheMarket(i: Input)
    ensures Evaluate(i).direction == LONG ==>
              && Ratio(i.features.ema.fast - i.features.ema.slow, i.features.lastClose) > 0.00035
              && Ratio(i.features.ema.slope, i.features.lastClose) > 0.00004
              && Ratio(i.features.lastClose - i.features.ema.slow, i.features.lastClose) > 0.0002
              && Move(i.features.moves.fiveMinute) * ModuleScores(i.features).volume >= 0.0
    ensures Evaluate(i).direction == SHORT ==>
              && Ratio(i.features.ema.fast - i.features.ema.slow, i.features.lastClose) < -0.00035
              && Ratio(i.features.ema.slope, i.features.lastClose) < -0.00004
              && Ratio(i.features.lastClose - i.features.ema.slow, i.features.lastClose) < -0.0002
  {
    hide Evaluate, Ratio, VolumeModule, MomentumModule, VolatilityModule, MeanReversionRisk, ChopRiskScore, TrendModule;
    if Evaluate(i).direction != NO_SIGNAL {
      EmittedIsAligned(i);
      TrendPoints(i.features);
      VolumePoints(i.features);
      OpposedProduct(Move(i.features.moves.fiveMinute), ModuleScores(i.features).volume);
    }
  }

}
