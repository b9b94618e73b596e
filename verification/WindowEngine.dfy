/** Building the current window event: start reference, current price, distance and phase. */
module WindowEngine {
  import opened Candles
  import opened Multiples
  import opened Options
  import opened Rounding
  import opened ShortWindow
  import opened Sorting

  const FORMING_SECONDS := 30
  const DECISION_ZONE_START_SECONDS := 120
  const NO_ENTRY_ZONE_SECONDS := 20

  function TickMs(t: Tick): int { t.timeMs }

  function MinusOpenMs(c: Candle): int { -c.openMs }

  function MinusTickMs(t: Tick): int { -t.timeMs }

  function TicksBetween(from: int, to: int): Tick -> bool { (t: Tick) => from <= t.timeMs <= to }

  function TicksUntil(to: int): Tick -> bool { (t: Tick) => t.timeMs <= to }

  function OpenedBetween(from: int, to: int): Candle -> bool { (c: Candle) => from <= c.openMs <= to }

  function OpenedUntil(to: int): Candle -> bool { (c: Candle) => c.openMs <= to }

  function Covering(at: int): Candle -> bool { (c: Candle) => c.openMs <= at < CloseMs(c) }

  function Overlapping(from: int, to: int): Candle -> bool { (c: Candle) => c.openMs < to && CloseMs(c) > from }

  function SumCloses(s: seq<Candle>): real {
    if s == [] then 0.0 else SumCloses(s[..|s| - 1]) + s[|s| - 1].close
  }

  function SumPrices(s: seq<Tick>): real {
    if s == [] then 0.0 else SumPrices(s[..|s| - 1]) + s[|s| - 1].price
  }

  function MeanClose(s: seq<Candle>): Option<real> {
    if s == [] then None else Some(Round8(SumCloses(s) / |s| as real))
  }

  function AverageReference(candles: seq<Candle>, ticks: seq<Tick>, startMs: int, seconds: int, now: int)
    : Option<real>
  {
    var endMs := MinInt(startMs + seconds * 1000, now);
    var inside := Filter(ticks, TicksBetween(startMs, endMs));
    if inside != [] then Some(Round8(SumPrices(inside) / |inside| as real))
    else MeanClose(Filter(candles, Overlapping(startMs, endMs)))
  }

  function ResolveStartReference(candles: seq<Candle>, ticks: seq<Tick>, startMs: int, now: int, rule: Rule)
    : Option<real>
  {
    if rule.ruleType.UnknownManualReference? then None
    else if rule.ruleType.EndAverage? then
      AverageReference(candles, ticks, startMs, rule.startAverageSeconds.GetOr(60), now)
    else
      var firstTick := First(SortBy(Filter(ticks, TicksBetween(startMs, now)), TickMs));
      var firstCandle := First(SortBy(Filter(candles, OpenedBetween(startMs, now)), OpenMs));
      var covering := First(SortBy(Filter(candles, Covering(startMs)), MinusOpenMs));
      if firstTick.Some? then Some(Round8(firstTick.value.price))
      else if firstCandle.Some? then Some(Round8(firstCandle.value.open))
      else if covering.Some? then Some(Round8(covering.value.open))
      else None
  }

  function ResolveCurrentPrice(ticks: seq<Tick>, candles: seq<Candle>, now: int): Option<real> {
    var latestTick := First(SortBy(Filter(ticks, TicksUntil(now)), MinusTickMs));
    var latestCandle := First(SortBy(Filter(candles, OpenedUntil(now)), MinusOpenMs));
    if latestTick.Some? then Some(Round8(latestTick.value.price))
    else if latestCandle.Some? then Some(Round8(latestCandle.value.close))
    else None
  }

  function SecondsRemaining(now: int, endMs: int): int { MaxInt(0, (endMs - now + 999) / 1000) }

  function ElapsedSeconds(now: int, startMs: int): int { MaxInt(0, (now - startMs) / 1000) }

  function EventStatus(now: int, startMs: int, endMs: int, hasStartReference: bool): Phase {
    if now >= endMs then Closed
    else if now < startMs || ElapsedSeconds(now, startMs) < FORMING_SECONDS || !hasStartReference then Forming
    else if SecondsRemaining(now, endMs) <= NO_ENTRY_ZONE_SECONDS then NoEntryZone
    else if SecondsRemaining(now, endMs) <= DECISION_ZONE_START_SECONDS then DecisionZone
    else Open
  }

  function WindowStart(now: int, i: WindowInterval): int { now / WindowMs(i) * WindowMs(i) }

  function BuildCurrentEvent(now: int, ticks: seq<Tick>, candles: seq<Candle>, rule: Rule): Event {
    var startMs := WindowStart(now, rule.interval);
    var endMs := startMs + WindowMs(rule.interval);
    var start := ResolveStartReference(candles, ticks, startMs, now, rule);
    var current := ResolveCurrentPrice(ticks, candles, now);
    var distanceBps :=
      if start.Some? && current.Some? && start.value != 0.0 then
        Some(Round4((current.value - start.value) / start.value * 10000.0))
      else None;
    Event(startMs, endMs, EventStatus(now, startMs, endMs, start.Some?), start, current, distanceBps,
          SecondsRemaining(now, endMs), rule)
  }

  // ----- which price is taken

  ghost predicate LatestTick(ticks: seq<Tick>, t: Tick, now: int) {
    t in ticks && t.timeMs <= now && forall u :: u in ticks && u.timeMs <= now ==> u.timeMs <= t.timeMs
  }

  ghost predicate LatestOpened(candles: seq<Candle>, c: Candle, now: int) {
    c in candles && c.openMs <= now && forall d :: d in candles && d.openMs <= now ==> d.openMs <= c.openMs
  }

  /** The current price is that of a latest tick up to now; without ticks, the close of a candle opened latest; and
      it is missing exactly when there is neither. */
  lemma CurrentPriceIsLatest(ticks: seq<Tick>, candles: seq<Candle>, now: int)
    ensures var price := ResolveCurrentPrice(ticks, candles, now);
            if exists t :: t in ticks && t.timeMs <= now then
              price.Some? && exists t :: LatestTick(ticks, t, now) && price.value == Round8(t.price)
            else if exists c :: c in candles && c.openMs <= now then
              price.Some? && exists c :: LatestOpened(candles, c, now) && price.value == Round8(c.close)
            else price.None?
  {
    hide SortBy, Filter, Round8;
    FirstIsLeast(ticks, TicksUntil(now), MinusTickMs);
    FirstIsLeast(candles, OpenedUntil(now), MinusOpenMs);
    var tick := First(SortBy(Filter(ticks, TicksUntil(now)), MinusTickMs));
    var candle := First(SortBy(Filter(candles, OpenedUntil(now)), MinusOpenMs));
    if tick.Some? {
      LatestOfTicks(ticks, tick.value, now);
    } else if candle.Some? {
      LatestOfCandles(candles, candle.value, now);
      assert forall t :: t in ticks && t.timeMs <= now ==> !TicksUntil(now)(t);
    } else {
      assert forall t :: t in ticks && t.timeMs <= now ==> !TicksUntil(now)(t);
      assert forall c :: c in candles && c.openMs <= now ==> !OpenedUntil(now)(c);
    }
  }

  lemma LatestOfTicks(ticks: seq<Tick>, t: Tick, now: int)
    requires t in ticks && TicksUntil(now)(t)
    requires forall u :: u in ticks && TicksUntil(now)(u) ==> MinusTickMs(t) <= MinusTickMs(u)
    ensures LatestTick(ticks, t, now)
  {
    forall u | u in ticks && u.timeMs <= now
      ensures u.timeMs <= t.timeMs
    {
      assert TicksUntil(now)(u);
    }
  }

  lemma LatestOfCandles(candles: seq<Candle>, c: Candle, now: int)
    requires c in candles && OpenedUntil(now)(c)
    requires forall d :: d in candles && OpenedUntil(now)(d) ==> MinusOpenMs(c) <= MinusOpenMs(d)
    ensures LatestOpened(candles, c, now)
  {
    forall d | d in candles && d.openMs <= now
      ensures d.openMs <= c.openMs
    {
      assert OpenedUntil(now)(d);
    }
  }

  // ----- phases

  function PhaseRank(p: Phase): int {
    match p
    case Forming => 0
    case Open => 1
    case DecisionZone => 2
    case NoEntryZone => 3
    case Closed => 4
  }

  /** A window never goes back to an earlier phase, as time passes and once there is a start reference. */
  lemma PhasesAdvance(early: int, late: int, startMs: int, endMs: int, hadReference: bool, hasReference: bool)
    requires early <= late && (hadReference ==> hasReference)
    ensures PhaseRank(EventStatus(early, startMs, endMs, hadReference))
         <= PhaseRank(EventStatus(late, startMs, endMs, hasReference))
  {
    DivMonotone(early - startMs, late - startMs, 1000);
    DivMonotone(endMs - late + 999, endMs - early + 999, 1000);
  }

  /** In milliseconds, for a window with a start reference: forming for its first thirty seconds, no entry in its last
      twenty, decision zone in the last two minutes before those, open in between, closed from its end on; without a
      reference it is forming until it closes. */
  lemma PhaseInMilliseconds(now: int, startMs: int, endMs: int)
    ensures startMs <= now ==>
              EventStatus(now, startMs, endMs, true) ==
                if now >= endMs then Closed else if now - startMs < 30000 then Forming
                else if endMs - now <= 20000 then NoEntryZone else if endMs - now <= 120000 then DecisionZone else Open
    ensures now < endMs && (now < startMs || now - startMs < 30000) ==>
              EventStatus(now, startMs, endMs, true) == Forming
    ensures EventStatus(now, startMs, endMs, false) == if now >= endMs then Closed else Forming
  {
  }

  ghost predicate EarliestTick(ticks: seq<Tick>, t: Tick, from: int, to: int) {
    && t in ticks && from <= t.timeMs <= to
    && forall u :: u in ticks && from <= u.timeMs <= to ==> t.timeMs <= u.timeMs
  }

  ghost predicate EarliestOpened(candles: seq<Candle>, c: Candle, from: int, to: int) {
    && c in candles && from <= c.openMs <= to
    && forall d :: d in candles && from <= d.openMs <= to ==> c.openMs <= d.openMs
  }

  ghost predicate LatestCovering(candles: seq<Candle>, c: Candle, at: int) {
    && c in candles && c.openMs <= at < c.openMs + c.granularity * 1000
    && forall d :: d in candles && d.openMs <= at < d.openMs + d.granularity * 1000 ==> d.openMs <= c.openMs
  }

  lemma TickReference(candles: seq<Candle>, ticks: seq<Tick>, startMs: int, now: int, rule: Rule)
    requires rule.ruleType.EndPrice? && exists t :: t in ticks && startMs <= t.timeMs <= now
    ensures exists t :: EarliestTick(ticks, t, startMs, now)
                        && ResolveStartReference(candles, ticks, startMs, now, rule) == Some(Round8(t.price))
  {
    hide SortBy, Filter, Round8;
    FirstIsLeast(ticks, TicksBetween(startMs, now), TickMs);
    var t :| t in ticks && startMs <= t.timeMs <= now;
    assert TicksBetween(startMs, now)(t);
    var first := First(SortBy(Filter(ticks, TicksBetween(startMs, now)), TickMs)).value;
    forall u | u in ticks && startMs <= u.timeMs <= now
      ensures first.timeMs <= u.timeMs
    {
      assert TicksBetween(startMs, now)(u);
    }
    assert EarliestTick(ticks, first, startMs, now);
  }

  lemma NoTick(ticks: seq<Tick>, startMs: int, now: int)
    requires forall t :: t in ticks ==> !(startMs <= t.timeMs <= now)
    ensures First(SortBy(Filter(ticks, TicksBetween(startMs, now)), TickMs)) == None
  {
    hide SortBy, Filter;
    FirstIsLeast(ticks, TicksBetween(startMs, now), TickMs);
  }

  lemma CandleReference(candles: seq<Candle>, ticks: seq<Tick>, startMs: int, now: int, rule: Rule)
    requires rule.ruleType.EndPrice? && forall t :: t in ticks ==> !(startMs <= t.timeMs <= now)
    ensures var price := ResolveStartReference(candles, ticks, startMs, now, rule);
            if exists c :: c in candles && startMs <= c.openMs <= now then
              exists c :: EarliestOpened(candles, c, startMs, now) && price == Some(Round8(c.open))
            else if exists c :: c in candles && c.openMs <= startMs < c.openMs + c.granularity * 1000 then
              exists c :: LatestCovering(candles, c, startMs) && price == Some(Round8(c.open))
            else price == None
  {
    hide SortBy, Filter, Round8;
    NoTick(ticks, startMs, now);
    FirstIsLeast(candles, OpenedBetween(startMs, now), OpenMs);
    FirstIsLeast(candles, Covering(startMs), MinusOpenMs);
    var inWindow := First(SortBy(Filter(candles, OpenedBetween(startMs, now)), OpenMs));
    var covering := First(SortBy(Filter(candles, Covering(startMs)), MinusOpenMs));
    if inWindow.Some? {
      forall d | d in candles && startMs <= d.openMs <= now
        ensures inWindow.value.openMs <= d.openMs
      {
        assert OpenedBetween(startMs, now)(d) && OpenMs(inWindow.value) <= OpenMs(d);
      }
      assert EarliestOpened(candles, inWindow.value, startMs, now);
    } else {
      assert forall c :: c in candles && startMs <= c.openMs <= now ==> !OpenedBetween(startMs, now)(c);
      if covering.Some? {
        forall d | d in candles && d.openMs <= startMs < d.openMs + d.granularity * 1000
          ensures d.openMs <= covering.value.openMs
        {
          assert Covering(startMs)(d) && MinusOpenMs(covering.value) <= MinusOpenMs(d);
        }
        assert LatestCovering(candles, covering.value, startMs);
      } else {
        assert forall c :: c in candles && c.openMs <= startMs < c.openMs + c.granularity * 1000 ==>
            !Covering(startMs)(c);
      }
    }
  }

  /** Under an end-price rule the start reference is the price of an earliest tick of the window so far; without
      one, the open of an earliest candle that opened in it; without one, the open of the newest candle that covers
      its start; and otherwise it is missing. Under a manual rule it is always missing. */
  lemma StartReferenceIsEarliest(candles: seq<Candle>, ticks: seq<Tick>, startMs: int, now: int, rule: Rule)
    ensures var price := ResolveStartReference(candles, ticks, startMs, now, rule);
            && (rule.ruleType.UnknownManualReference? ==> price == None)
            && (rule.ruleType.EndPrice? ==>
                  if exists t :: t in ticks && startMs <= t.timeMs <= now then
                    exists t :: EarliestTick(ticks, t, startMs, now) && price == Some(Round8(t.price))
                  else if exists c :: c in candles && startMs <= c.openMs <= now then
                    exists c :: EarliestOpened(candles, c, startMs, now) && price == Some(Round8(c.open))
                  else if exists c :: c in candles && c.openMs <= startMs < c.openMs + c.granularity * 1000 then
                    exists c :: LatestCovering(candles, c, startMs) && price == Some(Round8(c.open))
                  else price == None)
  {
    hide SortBy, Filter, Round8;
    if rule.ruleType.EndPrice? {
      if exists t :: t in ticks && startMs <= t.timeMs <= now {
        TickReference(candles, ticks, startMs, now, rule);
      } else {
        CandleReference(candles, ticks, startMs, now, rule);
      }
    }
  }

  // ----- averages

  lemma {:induction false} SumClosesBetween(s: seq<Candle>, low: real, high: real)
    requires forall c :: c in s ==> low <= c.close <= high
    ensures low * |s| as real <= SumCloses(s) <= high * |s| as real
  {
    if s != [] {
      var m := |s| - 1;
      assert s[m] in s;
      SumClosesBetween(s[..m], low, high);
      assert low * |s| as real == low * m as real + low && high * |s| as real == high * m as real + high;
    }
  }

  lemma {:induction false} SumPricesBetween(s: seq<Tick>, low: real, high: real)
    requires forall t :: t in s ==> low <= t.price <= high
    ensures low * |s| as real <= SumPrices(s) <= high * |s| as real
  {
    if s != [] {
      var m := |s| - 1;
      assert s[m] in s;
      SumPricesBetween(s[..m], low, high);
      assert low * |s| as real == low * m as real + low && high * |s| as real == high * m as real + high;
    }
  }

  lemma QuotientBetween(x: real, n: nat, low: real, high: real)
    requires n > 0 && low * n as real <= x <= high * n as real
    ensures low <= x / n as real <= high
  {
    var d, q := n as real, x / n as real;
    assert q * d == x;
    if q < low {
      Positive(low - q, d);
    } else if q > high {
      Positive(q - high, d);
    }
  }

  lemma Positive(x: real, y: real)
    requires x > 0.0 && y > 0.0
    ensures x * y > 0.0
  {
  }

  lemma Round8Between(x: real, low: real, high: real)
    requires low <= x <= high
    ensures Round8(low) <= Round8(x) <= Round8(high)
  {
    HalfAwayMonotone(low * 100000000.0, x * 100000000.0);
    HalfAwayMonotone(x * 100000000.0, high * 100000000.0);
  }

  /** The mean close of some candles lies between any bounds of their closes, up to rounding; it is missing exactly when
      there are none. */
  lemma MeanCloseBetween(s: seq<Candle>, low: real, high: real)
    requires forall c :: c in s ==> low <= c.close <= high
    ensures MeanClose(s) == None <==> s == []
    ensures s != [] ==> Round8(low) <= MeanClose(s).value <= Round8(high)
  {
    hide Round8;
    SumClosesBetween(s, low, high);
    if s != [] {
      QuotientBetween(SumCloses(s), |s|, low, high);
      Round8Between(SumCloses(s) / |s| as real, low, high);
    }
  }

  /** The start average of an average rule: over the ticks of its range so far if there are any, otherwise over the
      candles that overlap it; it lies between any bounds of what it averages, and is missing exactly when there is
      nothing. */
  lemma StartAverageReads(candles: seq<Candle>, ticks: seq<Tick>, startMs: int, seconds: int, now: int, low: real,
                          high: real)
    ensures var to := MinInt(startMs + seconds * 1000, now);
            var average := AverageReference(candles, ticks, startMs, seconds, now);
            if exists t :: t in ticks && startMs <= t.timeMs <= to then
              average.Some?
              && ((forall t :: t in ticks && startMs <= t.timeMs <= to ==> low <= t.price <= high) ==>
                    Round8(low) <= average.value <= Round8(high))
            else
              && (average.Some? <==> exists c :: c in candles && c.openMs < to && CloseMs(c) > startMs)
              && (average.Some? && (forall c :: c in candles && c.openMs < to && CloseMs(c) > startMs ==>
                                      low <= c.close <= high) ==>
                    Round8(low) <= average.value <= Round8(high))
  {
    hide Filter, Round8, MeanClose;
    var to := MinInt(startMs + seconds * 1000, now);
    var inside, over := Filter(ticks, TicksBetween(startMs, to)), Filter(candles, Overlapping(startMs, to));
    FilterMembers(ticks, TicksBetween(startMs, to));
    FilterMembers(candles, Overlapping(startMs, to));
    if t :| t in ticks && startMs <= t.timeMs <= to {
      assert t in inside;
      if forall u :: u in ticks && startMs <= u.timeMs <= to ==> low <= u.price <= high {
        SumPricesBetween(inside, low, high);
        QuotientBetween(SumPrices(inside), |inside|, low, high);
        Round8Between(SumPrices(inside) / |inside| as real, low, high);
      }
    } else {
      assert inside == [] by { NothingKept(ticks, startMs, to); }
      if forall c :: c in candles && c.openMs < to && CloseMs(c) > startMs ==> low <= c.close <= high {
        MeanCloseBetween(over, low, high);
      }
      MeanMissing(over);
      OverlapExists(candles, startMs, to);
    }
  }

  lemma NothingKept(ticks: seq<Tick>, from: int, to: int)
    requires !exists t :: t in ticks && from <= t.timeMs <= to
    ensures Filter(ticks, TicksBetween(from, to)) == []
  {
    FilterNone(ticks, TicksBetween(from, to));
  }

  lemma MeanMissing(s: seq<Candle>)
    ensures MeanClose(s) == None <==> s == []
  {
  }

  lemma OverlapExists(candles: seq<Candle>, from: int, to: int)
    ensures Filter(candles, Overlapping(from, to)) != [] <==>
              exists c :: c in candles && c.openMs < to && CloseMs(c) > from
  {
    hide Filter;
    var over := Filter(candles, Overlapping(from, to));
    FilterMembers(candles, Overlapping(from, to));
    if over != [] {
      assert over[0] in over;
    }
    if c :| c in candles && c.openMs < to && CloseMs(c) > from {
      assert c in over;
    }
  }

  /** The built event: an aligned window that contains the present, with the distance of the current price from the
      start reference in basis points. */
  lemma EventReads(now: int, ticks: seq<Tick>, candles: seq<Candle>, rule: Rule)
    ensures var e := BuildCurrentEvent(now, ticks, candles, rule);
            && e.startMs <= now < e.endMs && e.startMs % WindowMs(rule.interval) == 0
            && e.endMs == e.startMs + WindowMs(rule.interval)
            && e.startReference == ResolveStartReference(candles, ticks, e.startMs, now, rule)
            && e.currentPrice == ResolveCurrentPrice(ticks, candles, now) && e.rule == rule
            && (e.distanceBps.Some? <==>
                  e.startReference.Some? && e.currentPrice.Some? && e.startReference.value != 0.0)
            && (e.distanceBps.Some? ==>
                  e.distanceBps == Some(Round4((e.currentPrice.value - e.startReference.value)
                                               / e.startReference.value * 10000.0)))
  {
    hide ResolveStartReference, ResolveCurrentPrice, Round4, EventStatus;
    var step := WindowMs(rule.interval);
    MultipleOf(now / step, step);
  }
}
