/** The short-window replay: walk the windows of a period, signal one minute before each window ends from
    the candles closed by then, and settle each signal against the whole history. */
module Replay {
  import opened Candles
  import opened Multiples
  import opened Options
  import opened Rounding
  import opened ShortWindow
  import opened SignalEngine
  import opened Sorting
  import opened WindowEngine

  datatype Settled = UP | DOWN | TIE | UNKNOWN

  datatype RuleOutcome = RuleOutcome(side: Settled, startReference: Option<real>, endReference: Option<real>)

  datatype Status = WaitStatus | RejectedStatus | Pending | Unresolved | Win | Loss

  datatype Result = Result(event: Event, signal: Signal, status: Status, outcome: RuleOutcome, countedInWinRate: bool)

  // ----- settlement

  function ClosedBy(t: int): Candle -> bool { (c: Candle) => CloseMs(c) <= t }

  function MinusCloseMs(c: Candle): int { -CloseMs(c) }

  /** The close of the last candle, in opening order, that has closed by `endMs`. */
  function EndPriceAt(candles: seq<Candle>, endMs: int): Option<real> {
    var closed := Filter(SortBy(candles, OpenMs), ClosedBy(endMs));
    if closed == [] then None else Some(closed[|closed| - 1].close)
  }

  function AveragePrice(candles: seq<Candle>, startMs: int, seconds: int): Option<real> {
    MeanClose(Filter(candles, Overlapping(startMs, startMs + seconds * 1000)))
  }

  function Settle(rule: Rule, e: Event, candles: seq<Candle>): RuleOutcome {
    if rule.ruleType.UnknownManualReference? then RuleOutcome(UNKNOWN, e.startReference, None)
    else
      var start :=
        if rule.ruleType.EndAverage? then AveragePrice(candles, e.startMs, rule.startAverageSeconds.GetOr(60))
        else e.startReference;
      var last := rule.endAverageSeconds.GetOr(60);
      var end :=
        if rule.ruleType.EndAverage? then AveragePrice(candles, e.endMs - last * 1000, last)
        else EndPriceAt(candles, e.endMs);
      var side :=
        if start.None? || end.None? then UNKNOWN
        else if end.value > start.value then UP
        else if end.value < start.value then DOWN
        else match rule.tieRule case TieUp => UP case TieDown => DOWN case TieUnknown => TIE;
      RuleOutcome(side, start, end)
  }

  function Resolve(e: Event, signal: Signal, candles: seq<Candle>, checkedAt: int): Result {
    if signal.side.WAIT? then Result(e, signal, WaitStatus, RuleOutcome(UNKNOWN, None, None), false)
    else if signal.side.REJECTED? then Result(e, signal, RejectedStatus, RuleOutcome(UNKNOWN, None, None), false)
    else if e.endMs > checkedAt then Result(e, signal, Pending, RuleOutcome(UNKNOWN, None, None), false)
    else
      var o := Settle(e.rule, e, candles);
      if o.side.UNKNOWN? || o.side.TIE? then Result(e, signal, Unresolved, o, false)
      else
        var won := (signal.side.LONG_UP? && o.side.UP?) || (signal.side.LONG_DOWN? && o.side.DOWN?);
        Result(e, signal, if won then Win else Loss, o, true)
  }

  // ----- the walk

  function PriceAtOrBefore(candles: seq<Candle>, time: int): Option<real> {
    match First(SortBy(Filter(candles, ClosedBy(time)), MinusCloseMs))
    case None => None
    case Some(c) => Some(Round8(c.close))
  }

  function SyntheticTicks(price: Option<real>, time: int): Option<Tick> {
    match price
    case None => None
    case Some(p) => Some(Tick(time, p, Some(p - p * 0.00001), Some(p + p * 0.00001)))
  }

  function SignalTime(cursor: int, rule: Rule): int { cursor + WindowMs(rule.interval) - 60000 }

  function EventAt(cursor: int, candles: seq<Candle>, rule: Rule): Event {
    var time := SignalTime(cursor, rule);
    var seen := Filter(candles, ClosedBy(time));
    var tick := SyntheticTicks(PriceAtOrBefore(seen, time), time);
    BuildCurrentEvent(time, if tick.Some? then [tick.value] else [], seen, rule)
  }

  function SignalAt(cursor: int, candles: seq<Candle>, rule: Rule, sqrt: real -> real): Signal {
    var time := SignalTime(cursor, rule);
    var seen := Filter(candles, ClosedBy(time));
    var tick := SyntheticTicks(PriceAtOrBefore(seen, time), time);
    var bid := if tick.Some? then tick.value.bid else None;
    var ask := if tick.Some? then tick.value.ask else None;
    Generate(EventAt(cursor, candles, rule), MarketState(seen, tick, bid, ask, time, Some(180000), None), sqrt)
  }

  function ResultAt(cursor: int, candles: seq<Candle>, rule: Rule, checkedAt: int, sqrt: real -> real): Result {
    var event := EventAt(cursor, candles, rule).(startMs := cursor, endMs := cursor + WindowMs(rule.interval));
    Resolve(event, SignalAt(cursor, candles, rule, sqrt), candles, checkedAt)
  }

  /** The first window boundary at or after `from`. */
  function FirstBoundary(from: int, step: int): (r: int)
    requires step > 0
    ensures from <= r < from + step && r % step == 0
  {
    BoundaryUp(from, step);
    (from + step - 1) / step * step
  }

  lemma BoundaryUp(from: int, step: int)
    requires step > 0
    ensures from <= (from + step - 1) / step * step < from + step
    ensures (from + step - 1) / step * step % step == 0
  {
    var q := (from + step - 1) / step;
    assert from + step - 1 == q * step + (from + step - 1) % step;
    MultipleOf(q, step);
  }

  /** Where window `k` of a walk begins: the first boundary of the period, then the end of the one before. */
  function Expected(results: seq<Result>, k: nat, from: int, step: int): int
    requires k <= |results| && step > 0
  {
    if k == 0 then FirstBoundary(from, step) else results[k - 1].event.endMs
  }

  ghost predicate Tiled(results: seq<Result>, k: nat, from: int, to: int, step: int)
    requires k < |results| && step > 0
  {
    var e := results[k].event;
    e.startMs == Expected(results, k, from, step) && e.startMs % step == 0 && e.endMs == e.startMs + step <= to
  }

  /** The results are those of consecutive aligned windows, and no further whole window fits. */
  ghost predicate Tiles(results: seq<Result>, from: int, to: int, step: int)
    requires step > 0
  {
    && (forall k :: 0 <= k < |results| ==> Tiled(results, k, from, to, step))
    && Expected(results, |results|, from, step) + step > to
  }

  method ReplayCandles(candles: seq<Candle>, windowStart: int, windowEnd: int, checkedAt: int, rule: Rule,
                       sqrt: real -> real)
    returns (results: seq<Result>)
    ensures Tiles(results, windowStart, windowEnd, WindowMs(rule.interval))
    ensures forall k :: 0 <= k < |results| ==>
              results[k] == ResultAt(results[k].event.startMs, candles, rule, checkedAt, sqrt)
  {
    hide ResultAt, FirstBoundary;
    var step := WindowMs(rule.interval);
    results := [];
    var cursor := FirstBoundary(windowStart, step);
    while cursor + step <= windowEnd
      invariant cursor == Expected(results, |results|, windowStart, step) && cursor % step == 0
      invariant forall k :: 0 <= k < |results| ==> Tiled(results, k, windowStart, windowEnd, step)
      invariant forall k :: 0 <= k < |results| ==>
                  results[k] == ResultAt(results[k].event.startMs, candles, rule, checkedAt, sqrt)
      decreases windowEnd - cursor
    {
      var next := ResultAt(cursor, candles, rule, checkedAt, sqrt);
      ResultWindow(cursor, candles, rule, checkedAt, sqrt);
      StepsBy(cursor, step, 1);
      ghost var before := results;
      results := results + [next];
      cursor := cursor + step;
      forall k | 0 <= k < |results|
        ensures Tiled(results, k, windowStart, windowEnd, step)
      {
        if k < |before| {
          assert Tiled(before, k, windowStart, windowEnd, step);
        }
      }
    }
  }

  lemma ResultWindow(cursor: int, candles: seq<Candle>, rule: Rule, checkedAt: int, sqrt: real -> real)
    ensures var r := ResultAt(cursor, candles, rule, checkedAt, sqrt);
            r.event.startMs == cursor && r.event.endMs == cursor + WindowMs(rule.interval)
  {
    hide EventAt, SignalAt, Settle;
  }

  // ----- the window the engine recomputes

  /** Asked at signal time, the window engine finds the very window the walk is at, and its phase is the
      decision zone, or forming when there is no start reference. */
  lemma EngineFindsTheWindow(cursor: int, candles: seq<Candle>, rule: Rule)
    requires cursor % WindowMs(rule.interval) == 0
    ensures var e := EventAt(cursor, candles, rule);
            && e.startMs == cursor && e.endMs == cursor + WindowMs(rule.interval)
            && e.phase == (if e.startReference.Some? then DecisionZone else Forming)
            && e.secondsRemaining == 60
  {
    hide Filter, SortBy, ResolveStartReference, ResolveCurrentPrice, Round4, Round8;
    var step := WindowMs(rule.interval);
    var q := cursor / step;
    assert cursor == q * step;
    assert SignalTime(cursor, rule) / step == q;
  }

  /** Under an end-price rule the only tick in the window is the synthetic one at signal time, so the start
      reference is the price at signal time, not at the window's opening, and the distance is zero. */
  lemma StartReferenceIsSignalPrice(cursor: int, candles: seq<Candle>, rule: Rule)
    requires cursor % WindowMs(rule.interval) == 0 && rule.ruleType.EndPrice?
    requires PriceAtOrBefore(candles, SignalTime(cursor, rule)).Some?
    ensures var e := EventAt(cursor, candles, rule);
            && e.startReference == e.currentPrice == PriceAtOrBefore(candles, SignalTime(cursor, rule))
            && (e.startReference.value != 0.0 ==> e.distanceBps == Some(0.0))
  {
    hide Filter, SortBy, Round4, Round8, PriceAtOrBefore, ResolveStartReference, ResolveCurrentPrice, EventStatus;
    var time := SignalTime(cursor, rule);
    var seen := Filter(candles, ClosedBy(time));
    SeenPrice(candles, time);
    var price := PriceAtOrBefore(candles, time);
    var tick := SyntheticTicks(price, time).value;
    EngineFindsTheWindow(cursor, candles, rule);
    TickSetsThePrices(tick, seen, cursor, rule);
    RoundedPriceStays(candles, time);
    ZeroDistance(price.value);
  }

  lemma SeenPrice(candles: seq<Candle>, time: int)
    ensures PriceAtOrBefore(Filter(candles, ClosedBy(time)), time) == PriceAtOrBefore(candles, time)
  {
    hide Filter, SortBy;
    FilterTwice(candles, time, time);
  }

  lemma TickSetsThePrices(tick: Tick, candles: seq<Candle>, startMs: int, rule: Rule)
    requires rule.ruleType.EndPrice? && startMs <= tick.timeMs
    ensures ResolveStartReference(candles, [tick], startMs, tick.timeMs, rule) == Some(Round8(tick.price))
    ensures ResolveCurrentPrice([tick], candles, tick.timeMs) == Some(Round8(tick.price))
  {
    hide Round8;
    SingletonSorted(tick, TickMs);
    SingletonSorted(tick, MinusTickMs);
    OneFiltered(tick, TicksBetween(startMs, tick.timeMs));
    OneFiltered(tick, TicksUntil(tick.timeMs));
  }

  lemma SingletonSorted<T(!new)>(x: T, key: T -> int)
    ensures SortBy([x], key) == [x]
  {
    assert [x][..0] == [];
  }

  lemma RoundedPriceStays(candles: seq<Candle>, time: int)
    ensures PriceAtOrBefore(candles, time).Some? ==>
              Round8(PriceAtOrBefore(candles, time).value) == PriceAtOrBefore(candles, time).value
  {
    hide Filter, SortBy;
    match First(SortBy(Filter(candles, ClosedBy(time)), MinusCloseMs))
    case None =>
    case Some(c) => Round8Idempotent(c.close);
  }

  lemma Round8Idempotent(x: real)
    ensures Round8(Round8(x)) == Round8(x)
  {
    var n := HalfAway(x * 100000000.0);
    HalfAwayFixes(n);
    assert Round8(x) * 100000000.0 == n as real;
  }

  lemma ZeroDistance(x: real)
    ensures x != 0.0 ==> Round4((x - x) / x * 10000.0) == 0.0
  {
    if x != 0.0 {
      assert (x - x) / x == 0.0;
      HalfAwayFixes(0);
    }
  }

  lemma {:induction false} FilterTwice(candles: seq<Candle>, early: int, late: int)
    requires early <= late
    ensures Filter(Filter(candles, ClosedBy(late)), ClosedBy(early)) == Filter(candles, ClosedBy(early))
  {
    if candles != [] {
      var m := |candles| - 1;
      FilterTwice(candles[..m], early, late);
      var before := Filter(candles[..m], ClosedBy(late));
      assert (before + [candles[m]])[..|before|] == before;
    }
  }

  // ----- who wins

  /** Among the candles closed by `endMs`, one that opened last. */
  ghost predicate LastClosed(candles: seq<Candle>, c: Candle, endMs: int) {
    && c in candles && CloseMs(c) <= endMs
    && forall d :: d in candles && CloseMs(d) <= endMs ==> d.openMs <= c.openMs
  }

  /** The settlement price is the close of the candle that opened last among those closed by the end, and it is
      missing exactly when none has closed. */
  lemma EndPriceIsLast(candles: seq<Candle>, endMs: int)
    ensures match EndPriceAt(candles, endMs)
            case None => forall c :: c in candles ==> CloseMs(c) > endMs
            case Some(price) => exists c :: LastClosed(candles, c, endMs) && c.close == price
  {
    hide SortBy, Filter;
    var closed := SortBy(Filter(candles, ClosedBy(endMs)), OpenMs);
    FilterSort(candles, OpenMs, ClosedBy(endMs));
    SortedMatches(candles, ClosedBy(endMs), OpenMs);
    if closed == [] {
      forall c | c in candles
        ensures CloseMs(c) > endMs
      {
        assert c !in closed;
      }
    } else {
      var last := closed[|closed| - 1];
      assert last in closed;
      forall d | d in candles && CloseMs(d) <= endMs
        ensures d.openMs <= last.openMs
      {
        assert d in closed;
      }
      assert LastClosed(candles, last, endMs);
    }
  }

  /** The two references decide the window: both are there, and they differ or the rule names a side for a tie. */
  predicate Decides(o: RuleOutcome, tie: TieRule) {
    && o.startReference.Some? && o.endReference.Some?
    && (o.startReference == o.endReference ==> !tie.TieUnknown?)
  }

  /** What a result says about the prices: a signal is counted exactly when it is directional, its window is over, the
      rule is not a manual one and the two references decide; and it wins when the end reference lies on its side
      of the start reference, a tie going to the side that the rule names. */
  lemma WinsFollowThePrice(e: Event, signal: Signal, candles: seq<Candle>, checkedAt: int)
    ensures var r := Resolve(e, signal, candles, checkedAt);
            var o := Settle(e.rule, e, candles);
            && (r.countedInWinRate <==> r.status.Win? || r.status.Loss?)
            && (r.countedInWinRate <==>
                  && (signal.side.LONG_UP? || signal.side.LONG_DOWN?) && e.endMs <= checkedAt
                  && !e.rule.ruleType.UnknownManualReference? && Decides(o, e.rule.tieRule))
            && (r.countedInWinRate && signal.side.LONG_UP? ==>
                  (r.status.Win? <==> || o.endReference.value > o.startReference.value
                                      || (o.endReference == o.startReference && e.rule.tieRule.TieUp?)))
            && (r.countedInWinRate && signal.side.LONG_DOWN? ==>
                  (r.status.Win? <==> || o.endReference.value < o.startReference.value
                                      || (o.endReference == o.startReference && e.rule.tieRule.TieDown?)))
  {
    hide EndPriceAt, AveragePrice;
  }

  // ----- prices, averages and statuses of the walk

  /** The price at signal time is the rounded close of a candle that closed last by then, and missing exactly when
      none has closed. */
  lemma SignalPriceIsLatest(candles: seq<Candle>, time: int)
    ensures match PriceAtOrBefore(candles, time)
            case None => forall c :: c in candles ==> CloseMs(c) > time
            case Some(price) => exists c :: c in candles && CloseMs(c) <= time && price == Round8(c.close)
                                            && forall d :: d in candles && CloseMs(d) <= time ==>
                                                 CloseMs(d) <= CloseMs(c)
  {
    hide SortBy, Filter, Round8;
    FirstIsLeast(candles, ClosedBy(time), MinusCloseMs);
    match First(SortBy(Filter(candles, ClosedBy(time)), MinusCloseMs))
    case None =>
      assert forall c :: c in candles && CloseMs(c) <= time ==> ClosedBy(time)(c);
    case Some(c) =>
      forall d | d in candles && CloseMs(d) <= time
        ensures CloseMs(d) <= CloseMs(c)
      {
        assert ClosedBy(time)(d);
      }
  }

  /** A settlement average lies between any bounds of the closes of the candles that overlap its range, up to
      rounding, and is missing exactly when none does. */
  lemma SettlementAverageReads(candles: seq<Candle>, startMs: int, seconds: int, low: real, high: real)
    requires forall c :: c in candles && c.openMs < startMs + seconds * 1000 && CloseMs(c) > startMs ==>
               low <= c.close <= high
    ensures var average := AveragePrice(candles, startMs, seconds);
            && (average.Some? <==>
                  exists c :: c in candles && c.openMs < startMs + seconds * 1000 && CloseMs(c) > startMs)
            && (average.Some? ==> Round8(low) <= average.value <= Round8(high))
  {
    hide Filter, Round8, MeanClose;
    var over := Filter(candles, Overlapping(startMs, startMs + seconds * 1000));
    FilterMembers(candles, Overlapping(startMs, startMs + seconds * 1000));
    MeanCloseBetween(over, low, high);
    OverlapExists(candles, startMs, startMs + seconds * 1000);
  }

  /** Which references settle a window: under an end-price rule the event's own start and the last close by its end;
      under an average rule the averages over the first and the last seconds of the window, a minute each unless the
      rule says otherwise; under a manual rule none. */
  lemma ReferencesRead(rule: Rule, e: Event, candles: seq<Candle>)
    ensures var o := Settle(rule, e, candles);
            && (rule.ruleType.EndPrice? ==>
                  o.startReference == e.startReference && o.endReference == EndPriceAt(candles, e.endMs))
            && (rule.ruleType.EndAverage? ==>
                  var first, last := rule.startAverageSeconds.GetOr(60), rule.endAverageSeconds.GetOr(60);
                  && o.startReference == AveragePrice(candles, e.startMs, first)
                  && o.endReference == AveragePrice(candles, e.endMs - last * 1000, last))
            && (rule.ruleType.UnknownManualReference? ==> o.side == UNKNOWN && o.endReference == None)
  {
    hide EndPriceAt, AveragePrice;
  }

  /** The status of a result: that of a signal without a side, pending until the window is over, unresolved when the
      references do not decide, and otherwise a win or a loss. */
  lemma StatusReads(e: Event, signal: Signal, candles: seq<Candle>, checkedAt: int)
    ensures var status := Resolve(e, signal, candles, checkedAt).status;
            var directional := signal.side.LONG_UP? || signal.side.LONG_DOWN?;
            && (status == WaitStatus <==> signal.side.WAIT?) && (status == RejectedStatus <==> signal.side.REJECTED?)
            && (status == Pending <==> directional && e.endMs > checkedAt)
            && (status == Unresolved <==>
                  && directional && e.endMs <= checkedAt
                  && (e.rule.ruleType.UnknownManualReference?
                      || !Decides(Settle(e.rule, e, candles), e.rule.tieRule)))
  {
    hide EndPriceAt, AveragePrice;
  }

  /** The synthetic quote around a price has a spread of a fifth of a basis point. */
  lemma SyntheticSpread(price: real, time: int)
    requires price > 0.0
    ensures var tick := SyntheticTicks(Some(price), time).value;
            && tick.timeMs == time && tick.price == price && SpreadBps(tick.bid, tick.ask) == Some(0.2)
  {
    hide Round4;
    var bid, ask := price - price * 0.00001, price + price * 0.00001;
    assert (bid + ask) / 2.0 == price;
    assert (ask - bid) / price == 0.00002;
    Round4Fixes(2000);
  }
}
