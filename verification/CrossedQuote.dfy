/** A quote whose bid is above its ask turns a short-window side around: from ticks and a candle to the built event and
    the emitted signal. */
module CrossedQuote {
  import opened Candles
  import opened Options
  import opened Rounding
  import opened ShortWindow
  import opened SignalEngine
  import opened Sorting
  import opened WindowEngine

  const NOW := 240000

  const RULE := Rule(W5, EndPrice, High, TieUp, None, None)

  /** The fourth minute of the window falls by fourteen basis points; then a tick comes in three above the first one. */
  const CANDLES := [Candle(M1, 60, 180000, 10000.0, 10000.0, 9986.0, 9986.0, 0, true)]

  const FIRST := Tick(1000, 10000.0, Some(9999.0), Some(10001.0))

  const LATEST := Tick(NOW, 10003.0, Some(10013.0), Some(10003.0))

  const EVENT := Event(0, 300000, DecisionZone, Some(10000.0), Some(10003.0), Some(3.0), 60, RULE)

  const MARKET := MarketState(CANDLES, Some(LATEST), None, None, NOW, None, None)

  lemma Exactly(n: int)
    ensures Round8(n as real) == n as real && Round4(n as real) == n as real
  {
    HalfAwayFixes(n * 100000000);
    HalfAwayFixes(n * 10000);
    assert n as real * 100000000.0 == (n * 100000000) as real;
    assert n as real * 10000.0 == (n * 10000) as real;
  }

  lemma FirstTick()
    ensures ResolveStartReference(CANDLES, [FIRST, LATEST], 0, NOW, RULE) == Some(10000.0)
  {
    hide Filter, SortBy, Round8;
    var ticks := [FIRST, LATEST];
    FirstIsLeast(ticks, TicksBetween(0, NOW), TickMs);
    assert FIRST in ticks && TicksBetween(0, NOW)(FIRST);
    Exactly(10000);
  }

  lemma LatestTickPrice()
    ensures ResolveCurrentPrice([FIRST, LATEST], CANDLES, NOW) == Some(10003.0)
  {
    hide Filter, SortBy, Round8;
    var ticks := [FIRST, LATEST];
    FirstIsLeast(ticks, TicksUntil(NOW), MinusTickMs);
    assert LATEST in ticks && TicksUntil(NOW)(LATEST);
    Exactly(10003);
  }

  /** The event is the one that the window engine builds from the ticks and the candle. */
  lemma EventIsBuilt()
    ensures BuildCurrentEvent(NOW, [FIRST, LATEST], CANDLES, RULE) == EVENT
  {
    hide Filter, SortBy, Round4, Round8, ResolveStartReference, ResolveCurrentPrice;
    FirstTick();
    LatestTickPrice();
    Exactly(3);
    assert (10003.0 - 10000.0) / 10000.0 * 10000.0 == 3.0;
  }

  lemma CrossedSpread()
    ensures var spread := SpreadBps(Some(10013.0), Some(10003.0));
            spread.Some? && -10.0 <= spread.value <= -9.0
  {
    hide Round4;
    var bps := (10003.0 - 10013.0) / ((10013.0 + 10003.0) / 2.0) * 10000.0;
    assert -9.999 <= bps <= -9.99;
    Round4Near(bps);
  }

  lemma OneSorted(c: Candle)
    ensures SortBy([c], OpenMs) == [c] && LastNine([c]) == [c]
  {
    assert [c][..0] == [];
  }

  lemma CrossedFeatures(sqrt: real -> real)
    ensures var f := BuildFeatures(EVENT, MARKET, sqrt);
            && f.spreadBps.Some? && -10.0 <= f.spreadBps.value <= -9.0 && f.volatilityBps.None?
            && f.momentumBps == Some(0.0) && f.candleBodyBps == Some(-14.0) && !f.isStale
            && f.noiseThresholdBps == NoiseThreshold(f.spreadBps, None)
  {
    hide Round4, NoiseThreshold, SpreadBps, SortBy, LastNine, ReturnsBps;
    CrossedSpread();
    OneSorted(CANDLES[0]);
    Round4Zero();
    Exactly(-14);
  }

  lemma CrossedScore(spread: real)
    requires -10.0 <= spread <= -9.0
    ensures var score := DirectionalScore(3.0, 0.0, -14.0, Penalty(Some(spread), None));
            Grade(score, NoiseThreshold(Some(spread), None), 0.88, DEFAULT_MIN_CONFIDENCE).side == LONG_UP
  {
    var score := DirectionalScore(3.0, 0.0, -14.0, Penalty(Some(spread), None));
    var noise := NoiseThreshold(Some(spread), None);
    hide Round4;
    Round4Near(Unpenalised(3.0, 0.0, -14.0) - Penalty(Some(spread), None));
    Round4Near(2.0);
    assert score >= 13.0 && noise <= 2.1;
    RatioAboveOne(Abs(score), Max(1.0, noise * 3.0));
    Round4Near(0.88);
  }

  /** The condition bid <= ask is needed: the crossed quote makes the penalty negative, and the engine goes LONG_UP
      although the unpenalised score is below zero. */
  lemma CrossedQuoteFlips(sqrt: real -> real)
    ensures BuildCurrentEvent(NOW, [FIRST, LATEST], CANDLES, RULE) == EVENT
    ensures Generate(EVENT, MARKET, sqrt).side == LONG_UP
    ensures UnpenalisedOf(EVENT, BuildFeatures(EVENT, MARKET, sqrt)) < 0.0
  {
    hide Round4, BuildFeatures, NoiseThreshold, Grade, BuildCurrentEvent;
    EventIsBuilt();
    var f := BuildFeatures(EVENT, MARKET, sqrt);
    CrossedFeatures(sqrt);
    CrossedScore(f.spreadBps.value);
  }
}
