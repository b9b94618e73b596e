/** What a replayed result may depend on: nothing that closes after its window under an end-price rule, and under an
    average rule exactly the candles that the averaging ranges read and that are still open when the window ends. */
module ReplayLookahead {
  import opened Candles
  import opened Multiples
  import opened Options
  import opened Replay
  import opened Rounding
  import opened ShortWindow
  import opened SignalEngine
  import opened Sorting
  import opened WindowEngine

  // ----- histories that agree up to an instant

  /** The two histories have the same candles closed by `time`. */
  ghost predicate AgreeUntil(a: seq<Candle>, b: seq<Candle>, time: int) {
    Filter(a, ClosedBy(time)) == Filter(b, ClosedBy(time))
  }

  lemma AgreeEarlier(a: seq<Candle>, b: seq<Candle>, early: int, late: int)
    requires early <= late && AgreeUntil(a, b, late)
    ensures AgreeUntil(a, b, early)
  {
    FilterTwice(a, early, late);
    FilterTwice(b, early, late);
  }

  /** A signal depends on nothing that closes after its signal time. */
  lemma SignalsDoNotLookAhead(cursor: int, a: seq<Candle>, b: seq<Candle>, rule: Rule, time: int, sqrt: real -> real)
    requires AgreeUntil(a, b, time) && SignalTime(cursor, rule) <= time
    ensures EventAt(cursor, a, rule) == EventAt(cursor, b, rule)
    ensures SignalAt(cursor, a, rule, sqrt) == SignalAt(cursor, b, rule, sqrt)
  {
    hide Filter, SortBy, Generate, BuildCurrentEvent, PriceAtOrBefore, SyntheticTicks;
    AgreeEarlier(a, b, SignalTime(cursor, rule), time);
  }

  lemma EndPriceAgrees(a: seq<Candle>, b: seq<Candle>, endMs: int)
    requires AgreeUntil(a, b, endMs)
    ensures EndPriceAt(a, endMs) == EndPriceAt(b, endMs)
  {
    FilterSort(a, OpenMs, ClosedBy(endMs));
    FilterSort(b, OpenMs, ClosedBy(endMs));
  }

  // ----- what an average reads

  /** Every candle that the range reads has closed by `end`. */
  ghost predicate ReadsClosedOnly(candles: seq<Candle>, from: int, to: int, end: int) {
    forall c :: c in candles && Overlapping(from, to)(c) ==> CloseMs(c) <= end
  }

  lemma {:induction false} ClosedReadsSuffice(candles: seq<Candle>, from: int, to: int, end: int)
    requires ReadsClosedOnly(candles, from, to, end)
    ensures Filter(candles, Overlapping(from, to)) == Filter(Filter(candles, ClosedBy(end)), Overlapping(from, to))
  {
    if candles != [] {
      var m := |candles| - 1;
      assert candles[m] in candles;
      ClosedReadsSuffice(candles[..m], from, to, end);
      var before := Filter(candles[..m], ClosedBy(end));
      assert (before + [candles[m]])[..|before|] == before;
    }
  }

  /** A range reads the same candles from the whole history as from the closed part of it if and only if every candle
      it reads has closed. */
  lemma OverlapSeesClosedOnly(candles: seq<Candle>, from: int, to: int, end: int)
    ensures ReadsClosedOnly(candles, from, to, end) <==>
              Filter(candles, Overlapping(from, to)) == Filter(Filter(candles, ClosedBy(end)), Overlapping(from, to))
  {
    if ReadsClosedOnly(candles, from, to, end) {
      ClosedReadsSuffice(candles, from, to, end);
    } else {
      hide Filter;
      var c :| c in candles && Overlapping(from, to)(c) && CloseMs(c) > end;
      FilterMembers(candles, Overlapping(from, to));
      FilterMembers(candles, ClosedBy(end));
      FilterMembers(Filter(candles, ClosedBy(end)), Overlapping(from, to));
      assert c in Filter(candles, Overlapping(from, to));
      assert !ClosedBy(end)(c);
    }
  }

  lemma AverageAgrees(a: seq<Candle>, b: seq<Candle>, startMs: int, seconds: int, end: int)
    requires AgreeUntil(a, b, end)
    requires ReadsClosedOnly(a, startMs, startMs + seconds * 1000, end)
    requires ReadsClosedOnly(b, startMs, startMs + seconds * 1000, end)
    ensures AveragePrice(a, startMs, seconds) == AveragePrice(b, startMs, seconds)
  {
    hide Filter;
    OverlapSeesClosedOnly(a, startMs, startMs + seconds * 1000, end);
    OverlapSeesClosedOnly(b, startMs, startMs + seconds * 1000, end);
  }

  function WindowEnd(cursor: int, rule: Rule): int { cursor + WindowMs(rule.interval) }

  function FirstSeconds(rule: Rule): int { rule.startAverageSeconds.GetOr(60) }

  function LastSeconds(rule: Rule): int { rule.endAverageSeconds.GetOr(60) }

  /** The two averaging ranges of the rule read only candles that have closed when the window ends. */
  ghost predicate AveragesSettled(candles: seq<Candle>, cursor: int, rule: Rule) {
    var end := WindowEnd(cursor, rule);
    && ReadsClosedOnly(candles, cursor, cursor + FirstSeconds(rule) * 1000, end)
    && ReadsClosedOnly(candles, end - LastSeconds(rule) * 1000, end, end)
  }

  /** A result depends on nothing that closes after its window ends: always under an end-price rule, and under an
      average rule when the averages are settled. */
  lemma ResultsDoNotLookAhead(cursor: int, a: seq<Candle>, b: seq<Candle>, rule: Rule, time: int, checkedAt: int,
                              sqrt: real -> real)
    requires AgreeUntil(a, b, time) && WindowEnd(cursor, rule) <= time
    requires rule.ruleType.EndAverage? ==> AveragesSettled(a, cursor, rule) && AveragesSettled(b, cursor, rule)
    ensures ResultAt(cursor, a, rule, checkedAt, sqrt) == ResultAt(cursor, b, rule, checkedAt, sqrt)
  {
    hide Filter, SortBy, Generate, BuildCurrentEvent, EventAt, SignalAt, EndPriceAt, AveragePrice, ReadsClosedOnly;
    SignalsDoNotLookAhead(cursor, a, b, rule, time, sqrt);
    var end := WindowEnd(cursor, rule);
    AgreeEarlier(a, b, end, time);
    EndPriceAgrees(a, b, end);
    EventRule(cursor, a, rule);
    if rule.ruleType.EndAverage? {
      AverageAgrees(a, b, cursor, FirstSeconds(rule), end);
      AverageAgrees(a, b, end - LastSeconds(rule) * 1000, LastSeconds(rule), end);
    }
  }

  lemma EventRule(cursor: int, candles: seq<Candle>, rule: Rule)
    ensures EventAt(cursor, candles, rule).rule == rule
  {
    hide Filter, SortBy, ResolveStartReference, ResolveCurrentPrice;
  }

  // ----- when the averages are settled

  /** No candle of the history spans the instant `t`. */
  ghost predicate NoneSpans(candles: seq<Candle>, t: int) {
    forall c :: c in candles && c.openMs < t ==> CloseMs(c) <= t
  }

  /** For a rule whose start range ends within the window and whose end range is not negative, the averages are
      settled if and only if no candle spans the end of the window. */
  lemma SettledExactlyWhenNoneSpans(candles: seq<Candle>, cursor: int, rule: Rule)
    requires FirstSeconds(rule) * 1000 <= WindowMs(rule.interval) && 0 <= LastSeconds(rule)
    ensures AveragesSettled(candles, cursor, rule) <==> NoneSpans(candles, WindowEnd(cursor, rule))
  {
    var end := WindowEnd(cursor, rule);
    if !NoneSpans(candles, end) {
      var c :| c in candles && c.openMs < end && CloseMs(c) > end;
      assert Overlapping(end - LastSeconds(rule) * 1000, end)(c);
    }
  }

  /** Candles of one minute that open on whole minutes, as the program downloads them for a replay. */
  ghost predicate MinuteCandles(candles: seq<Candle>) {
    forall c :: c in candles ==> c.granularity == 60 && c.openMs % 60000 == 0
  }

  lemma WindowsEndOnMinutes(cursor: int, i: WindowInterval)
    requires cursor % WindowMs(i) == 0
    ensures (cursor + WindowMs(i)) % 60000 == 0
  {
    StepsBy(cursor, WindowMs(i), 1);
    DividesThrough(60000, WindowMs(i), cursor + WindowMs(i));
  }

  lemma NextMinute(open: int, end: int)
    requires open % 60000 == 0 && end % 60000 == 0 && open < end
    ensures open + 60000 <= end
  {
  }

  lemma MinutesAreSettled(candles: seq<Candle>, cursor: int, rule: Rule)
    requires MinuteCandles(candles) && cursor % WindowMs(rule.interval) == 0
    requires FirstSeconds(rule) * 1000 <= WindowMs(rule.interval)
    ensures AveragesSettled(candles, cursor, rule)
  {
    hide WindowMs;
    var end := WindowEnd(cursor, rule);
    WindowsEndOnMinutes(cursor, rule.interval);
    forall c | c in candles && c.openMs < end
      ensures CloseMs(c) <= end
    {
      NextMinute(c.openMs, end);
    }
  }

  /** On minute candles, and with a start average that ends within the window, no replayed result looks past the end
      of its window, whatever the rule. */
  lemma MinuteReplayDoesNotLookAhead(cursor: int, a: seq<Candle>, b: seq<Candle>, rule: Rule, time: int,
                                     checkedAt: int, sqrt: real -> real)
    requires MinuteCandles(a) && MinuteCandles(b) && cursor % WindowMs(rule.interval) == 0
    requires FirstSeconds(rule) * 1000 <= WindowMs(rule.interval)
    requires AgreeUntil(a, b, time) && WindowEnd(cursor, rule) <= time
    ensures ResultAt(cursor, a, rule, checkedAt, sqrt) == ResultAt(cursor, b, rule, checkedAt, sqrt)
  {
    hide AveragesSettled, ResultAt, AgreeUntil, MinuteCandles;
    MinutesAreSettled(a, cursor, rule);
    MinutesAreSettled(b, cursor, rule);
    ResultsDoNotLookAhead(cursor, a, b, rule, time, checkedAt, sqrt);
  }

  // ----- the exact condition under an average rule

  /** `b` is `a` with other closes for candles that have not closed by `end`. */
  ghost predicate Revised(a: seq<Candle>, b: seq<Candle>, end: int) {
    && |b| == |a|
    && forall i :: 0 <= i < |a| ==> b[i] == a[i] || (CloseMs(a[i]) > end && b[i] == a[i].(close := b[i].close))
  }

  lemma {:induction false} RevisedAgrees(a: seq<Candle>, b: seq<Candle>, end: int)
    requires Revised(a, b, end)
    ensures AgreeUntil(a, b, end)
  {
    if a != [] {
      RevisedAgrees(a[..|a| - 1], b[..|a| - 1], end);
    }
  }

  lemma RevisedReads(a: seq<Candle>, b: seq<Candle>, end: int, from: int, to: int)
    requires Revised(a, b, end) && ReadsClosedOnly(a, from, to, end)
    ensures ReadsClosedOnly(b, from, to, end)
  {
    forall c | c in b && Overlapping(from, to)(c)
      ensures CloseMs(c) <= end
    {
      var i :| 0 <= i < |b| && b[i] == c;
      assert a[i] in a;
    }
  }

  /** The history with the close of candle `i` raised by `x`. */
  function Raised(a: seq<Candle>, i: nat, x: real): seq<Candle>
    requires i < |a|
  {
    a[i := a[i].(close := a[i].close + x)]
  }

  lemma {:induction false} RaisedSum(a: seq<Candle>, i: nat, x: real, from: int, to: int)
    requires i < |a| && Overlapping(from, to)(a[i])
    ensures var p := Overlapping(from, to);
            && |Filter(Raised(a, i, x), p)| == |Filter(a, p)| > 0
            && SumCloses(Filter(Raised(a, i, x), p)) == SumCloses(Filter(a, p)) + x
  {
    hide Filter, SumCloses;
    var p, m := Overlapping(from, to), |a| - 1;
    var b := Raised(a, i, x);
    assert a == a[..m] + [a[m]] && b == b[..m] + [b[m]];
    KeptSum(a[..m], a[m], p);
    KeptSum(b[..m], b[m], p);
    if i < m {
      RaisedSum(a[..m], i, x, from, to);
      assert b[..m] == Raised(a[..m], i, x);
    } else {
      assert b[..m] == a[..m];
    }
  }

  lemma KeptSum(s: seq<Candle>, c: Candle, p: Candle -> bool)
    ensures Filter(s + [c], p) == if p(c) then Filter(s, p) + [c] else Filter(s, p)
    ensures SumCloses(Filter(s + [c], p)) == SumCloses(Filter(s, p)) + if p(c) then c.close else 0.0
  {
    assert (s + [c])[..|s|] == s;
    var before := Filter(s, p);
    assert (before + [c])[..|before|] == before;
  }

  lemma QuotientOf(q: real, d: real, x: real)
    requires d > 0.0 && q * d == x
    ensures x / d == q
  {
  }

  lemma OneUpRoundsApart(m: real)
    ensures Round8(m + 1.0) != Round8(m)
  {
    assert HalfAway((m + 1.0) * 100000000.0) > HalfAway(m * 100000000.0);
  }

  lemma MeanMoves(sum: real, n: nat)
    requires n > 0
    ensures Round8((sum + n as real) / n as real) != Round8(sum / n as real)
  {
    hide Round8;
    var d, m := n as real, sum / n as real;
    assert m * d == sum;
    assert (m + 1.0) * d == m * d + d;
    QuotientOf(m + 1.0, d, sum + d);
    OneUpRoundsApart(m);
  }

  /** Raising a candle that a range reads changes the average over the range. */
  lemma RaisedAverage(a: seq<Candle>, i: nat, startMs: int, seconds: int)
    requires i < |a| && Overlapping(startMs, startMs + seconds * 1000)(a[i])
    ensures var n := |Filter(a, Overlapping(startMs, startMs + seconds * 1000))|;
            AveragePrice(Raised(a, i, n as real), startMs, seconds) != AveragePrice(a, startMs, seconds)
  {
    hide Filter, Round8;
    var p := Overlapping(startMs, startMs + seconds * 1000);
    var n := |Filter(a, p)|;
    RaisedSum(a, i, n as real, startMs, startMs + seconds * 1000);
    MeanMoves(SumCloses(Filter(a, p)), n);
  }

  /** The walk settles the window of this signal: it is directional, and the window is over when results are made. */
  predicate Settles(cursor: int, candles: seq<Candle>, rule: Rule, checkedAt: int, sqrt: real -> real) {
    var side := SignalAt(cursor, candles, rule, sqrt).side;
    (side.LONG_UP? || side.LONG_DOWN?) && WindowEnd(cursor, rule) <= checkedAt
  }

  lemma UnsettledStays(cursor: int, a: seq<Candle>, b: seq<Candle>, rule: Rule, checkedAt: int, sqrt: real -> real)
    requires AgreeUntil(a, b, WindowEnd(cursor, rule)) && !Settles(cursor, a, rule, checkedAt, sqrt)
    ensures ResultAt(cursor, a, rule, checkedAt, sqrt) == ResultAt(cursor, b, rule, checkedAt, sqrt)
  {
    hide AgreeUntil, Settle, EventAt, SignalAt;
    SignalsDoNotLookAhead(cursor, a, b, rule, WindowEnd(cursor, rule), sqrt);
  }

  lemma SettledShows(cursor: int, a: seq<Candle>, b: seq<Candle>, rule: Rule, checkedAt: int, sqrt: real -> real)
    requires rule.ruleType.EndAverage? && Settles(cursor, a, rule, checkedAt, sqrt)
    requires AgreeUntil(a, b, WindowEnd(cursor, rule))
    requires || AveragePrice(a, cursor, FirstSeconds(rule)) != AveragePrice(b, cursor, FirstSeconds(rule))
             || AveragePrice(a, WindowEnd(cursor, rule) - LastSeconds(rule) * 1000, LastSeconds(rule))
             != AveragePrice(b, WindowEnd(cursor, rule) - LastSeconds(rule) * 1000, LastSeconds(rule))
    ensures ResultAt(cursor, a, rule, checkedAt, sqrt) != ResultAt(cursor, b, rule, checkedAt, sqrt)
  {
    hide AgreeUntil, EventAt, SignalAt, AveragePrice;
    SignalsDoNotLookAhead(cursor, a, b, rule, WindowEnd(cursor, rule), sqrt);
    EventRule(cursor, a, rule);
  }

  lemma RaisedIsRevised(a: seq<Candle>, i: nat, x: real, end: int)
    requires i < |a| && CloseMs(a[i]) > end
    ensures Revised(a, Raised(a, i, x), end)
  {
  }

  /** Under an average rule, a result is the same for all closes of the candles that are still open when the window
      ends, if and only if the window is not settled or its averages read no such candle. */
  lemma AverageRuleExactly(cursor: int, a: seq<Candle>, rule: Rule, checkedAt: int, sqrt: real -> real)
    requires rule.ruleType.EndAverage?
    ensures (forall b :: Revised(a, b, WindowEnd(cursor, rule)) ==>
               ResultAt(cursor, b, rule, checkedAt, sqrt) == ResultAt(cursor, a, rule, checkedAt, sqrt))
       <==> (Settles(cursor, a, rule, checkedAt, sqrt) ==> AveragesSettled(a, cursor, rule))
  {
    hide ResultAt, Settles, AveragePrice, Raised, Revised;
    if Settles(cursor, a, rule, checkedAt, sqrt) && !AveragesSettled(a, cursor, rule) {
      OpenReadShows(cursor, a, rule, checkedAt, sqrt);
    } else {
      hide AveragesSettled;
      forall b | Revised(a, b, WindowEnd(cursor, rule))
        ensures ResultAt(cursor, b, rule, checkedAt, sqrt) == ResultAt(cursor, a, rule, checkedAt, sqrt)
      {
        RevisionHides(cursor, a, b, rule, checkedAt, sqrt);
      }
    }
  }

  lemma RevisionHides(cursor: int, a: seq<Candle>, b: seq<Candle>, rule: Rule, checkedAt: int, sqrt: real -> real)
    requires rule.ruleType.EndAverage? && Revised(a, b, WindowEnd(cursor, rule))
    requires Settles(cursor, a, rule, checkedAt, sqrt) ==> AveragesSettled(a, cursor, rule)
    ensures ResultAt(cursor, b, rule, checkedAt, sqrt) == ResultAt(cursor, a, rule, checkedAt, sqrt)
  {
    hide ResultAt, Settles, AgreeUntil, Revised, ReadsClosedOnly;
    var end := WindowEnd(cursor, rule);
    RevisedAgrees(a, b, end);
    if Settles(cursor, a, rule, checkedAt, sqrt) {
      RevisedReads(a, b, end, cursor, cursor + FirstSeconds(rule) * 1000);
      RevisedReads(a, b, end, end - LastSeconds(rule) * 1000, end);
      ResultsDoNotLookAhead(cursor, a, b, rule, end, checkedAt, sqrt);
    } else {
      UnsettledStays(cursor, a, b, rule, checkedAt, sqrt);
    }
  }

  lemma OpenReadShows(cursor: int, a: seq<Candle>, rule: Rule, checkedAt: int, sqrt: real -> real)
    requires rule.ruleType.EndAverage? && Settles(cursor, a, rule, checkedAt, sqrt)
    requires !AveragesSettled(a, cursor, rule)
    ensures exists b :: Revised(a, b, WindowEnd(cursor, rule))
                        && ResultAt(cursor, b, rule, checkedAt, sqrt) != ResultAt(cursor, a, rule, checkedAt, sqrt)
  {
    hide ResultAt, Settles, AveragePrice, Raised, Revised, AgreeUntil;
    var end := WindowEnd(cursor, rule);
    if !ReadsClosedOnly(a, cursor, cursor + FirstSeconds(rule) * 1000, end) {
      OpenReadIn(cursor, a, rule, checkedAt, sqrt, cursor, FirstSeconds(rule));
    } else {
      OpenReadIn(cursor, a, rule, checkedAt, sqrt, end - LastSeconds(rule) * 1000, LastSeconds(rule));
    }
  }

  lemma OpenReadIn(cursor: int, a: seq<Candle>, rule: Rule, checkedAt: int, sqrt: real -> real, from: int, seconds: int)
    requires rule.ruleType.EndAverage? && Settles(cursor, a, rule, checkedAt, sqrt)
    requires || (from == cursor && seconds == FirstSeconds(rule))
             || (from == WindowEnd(cursor, rule) - LastSeconds(rule) * 1000 && seconds == LastSeconds(rule))
    requires !ReadsClosedOnly(a, from, from + seconds * 1000, WindowEnd(cursor, rule))
    ensures exists b :: Revised(a, b, WindowEnd(cursor, rule))
                        && ResultAt(cursor, b, rule, checkedAt, sqrt) != ResultAt(cursor, a, rule, checkedAt, sqrt)
  {
    hide ResultAt, Settles, AveragePrice, Raised, Revised, AgreeUntil;
    var end := WindowEnd(cursor, rule);
    var c :| c in a && Overlapping(from, from + seconds * 1000)(c) && CloseMs(c) > end;
    var i :| 0 <= i < |a| && a[i] == c;
    var n := |Filter(a, Overlapping(from, from + seconds * 1000))|;
    var b := Raised(a, i, n as real);
    RaisedIsRevised(a, i, n as real, end);
    RevisedAgrees(a, b, end);
    RaisedAverage(a, i, from, seconds);
    SettledShows(cursor, a, b, rule, checkedAt, sqrt);
  }

  // ----- a result that does look ahead

  const EARLIER := Candle(M15, 900, 900000, 100.0, 100.0, 100.0, 100.0, 0, true)
  const COVERING := Candle(M15, 900, 1800000, 110.0, 110.0, 110.0, 110.0, 0, true)
  const SEEN := [EARLIER, COVERING]
  const TEN_MINUTE_AVERAGE := Rule(W10, EndAverage, High, TieUnknown, None, None)

  /** The fifteen-minute candle that is open when the window from 2400000 to 3000000 ends. */
  function Spanning(close: real): Candle { Candle(M15, 900, 2700000, 110.0, 110.0, 110.0, close, 0, true) }

  function Quarters(close: real): seq<Candle> { [EARLIER, COVERING, Spanning(close)] }

  lemma SeenQuarters(close: real)
    ensures Filter(Quarters(close), ClosedBy(2940000)) == SEEN
    ensures Filter(Quarters(close), ClosedBy(3000000)) == SEEN
  {
    TripleFiltered(EARLIER, COVERING, Spanning(close), ClosedBy(2940000));
    TripleFiltered(EARLIER, COVERING, Spanning(close), ClosedBy(3000000));
  }

  lemma ExactPrice(close: int)
    ensures Round8(close as real) == close as real
  {
    HalfAwayFixes(close * 100000000);
    assert close as real * 100000000.0 == (close * 100000000) as real;
  }

  lemma OneMean(c: Candle, close: int)
    requires c.close == close as real
    ensures MeanClose([c]) == Some(c.close)
  {
    hide Round8;
    assert [c][..0] == [];
    assert SumCloses([c]) == c.close;
    QuotientOf(c.close, |[c]| as real, SumCloses([c]));
    ExactPrice(close);
  }

  lemma SeenPriceIsCovering()
    ensures PriceAtOrBefore(SEEN, 2940000) == Some(110.0)
  {
    hide SortBy, Filter, Round8;
    FirstIsLeast(SEEN, ClosedBy(2940000), MinusCloseMs);
    assert COVERING in SEEN && ClosedBy(2940000)(COVERING);
    ExactPrice(110);
  }

  const COVERING_TICK := Tick(2940000, 110.0, Some(110.0 - 110.0 * 0.00001), Some(110.0 + 110.0 * 0.00001))

  lemma CoveringReference()
    ensures ResolveStartReference(SEEN, [COVERING_TICK], 2400000, 2940000, TEN_MINUTE_AVERAGE) == Some(110.0)
    ensures ResolveCurrentPrice([COVERING_TICK], SEEN, 2940000) == Some(110.0)
  {
    hide Filter, SortBy, Round8;
    OneFiltered(COVERING_TICK, TicksBetween(2400000, 2460000));
    PairFiltered(EARLIER, COVERING, Overlapping(2400000, 2460000));
    OneMean(COVERING, 110);
    FirstIsLeast([COVERING_TICK], TicksUntil(2940000), MinusTickMs);
    assert COVERING_TICK in [COVERING_TICK] && TicksUntil(2940000)(COVERING_TICK);
    ExactPrice(110);
  }

  lemma CoveringEvent(close: real)
    ensures var e := EventAt(2400000, Quarters(close), TEN_MINUTE_AVERAGE);
            && e.rule == TEN_MINUTE_AVERAGE && e.phase.DecisionZone?
            && e.startReference == Some(110.0) && e.currentPrice == Some(110.0) && e.distanceBps == Some(0.0)
  {
    hide Filter, SortBy, ResolveStartReference, ResolveCurrentPrice, PriceAtOrBefore, Round4;
    SeenQuarters(close);
    SeenPriceIsCovering();
    CoveringReference();
    EngineFindsTheWindow(2400000, Quarters(close), TEN_MINUTE_AVERAGE);
    Round4Zero();
  }

  lemma CoveringSpread()
    ensures var spread := SpreadBps(COVERING_TICK.bid, COVERING_TICK.ask);
            spread.Some? && 0.0 <= spread.value <= 1.0
  {
    hide Round4;
    var bid, ask := COVERING_TICK.bid.value, COVERING_TICK.ask.value;
    assert (bid + ask) / 2.0 == 110.0;
    assert 0.0 <= (ask - bid) / 110.0 * 10000.0 <= 0.5;
    Round4Near((ask - bid) / ((bid + ask) / 2.0) * 10000.0);
    Round4Monotone(0.0, (ask - bid) / ((bid + ask) / 2.0) * 10000.0);
    Round4Zero();
  }

  const COVERING_MARKET := MarketState(SEEN, Some(COVERING_TICK), COVERING_TICK.bid, COVERING_TICK.ask, 2940000,
                                       Some(180000), None)

  lemma ThousandIsExact()
    ensures Round4(1000.0) == 1000.0
  {
    HalfAwayFixes(10000000);
  }

  lemma SeenSorted()
    ensures SortBy(SEEN, OpenMs) == SEEN && LastNine(SEEN) == SEEN
  {
    assert SEEN[0].openMs <= SEEN[1].openMs;
    SortedIsFixed(SEEN, OpenMs);
  }

  lemma CoveringFeatures(e: Event, sqrt: real -> real)
    ensures var f := BuildFeatures(e, COVERING_MARKET, sqrt);
            && f.spreadBps.Some? && 0.0 <= f.spreadBps.value <= 1.0 && f.volatilityBps.None? && !f.isStale
            && f.momentumBps == Some(1000.0) && f.candleBodyBps == Some(0.0)
            && f.noiseThresholdBps == NoiseThreshold(f.spreadBps, None)
  {
    hide Round4, NoiseThreshold, SpreadBps, SortBy, LastNine, ReturnsBps;
    CoveringSpread();
    SeenSorted();
    Round4Zero();
    ThousandIsExact();
  }

  lemma CoveringScore(spread: real)
    requires 0.0 <= spread <= 1.0
    ensures var score := DirectionalScore(0.0, 1000.0, 0.0, Penalty(Some(spread), None));
            Grade(score, NoiseThreshold(Some(spread), None), 0.88, DEFAULT_MIN_CONFIDENCE).side == LONG_UP
  {
    hide Round4;
    var score := DirectionalScore(0.0, 1000.0, 0.0, Penalty(Some(spread), None));
    var noise := NoiseThreshold(Some(spread), None);
    Round4Near(Unpenalised(0.0, 1000.0, 0.0) - Penalty(Some(spread), None));
    Round4Near(Max(2.0, Min(35.0, 3.0 * 0.55 + spread * 2.0 + 1.5)));
    assert score >= 300.0 && 1.9 <= noise <= 6.0;
    RatioAboveOne(Abs(score), Max(1.0, noise * 3.0));
    Round4Near(0.88);
  }

  /** The signal one minute before the window ends goes up, whatever the spanning candle will do. */
  lemma CoveringSignal(close: real, sqrt: real -> real)
    ensures SignalAt(2400000, Quarters(close), TEN_MINUTE_AVERAGE, sqrt).side == LONG_UP
  {
    hide Filter, SortBy, EventAt, BuildFeatures, NoiseThreshold, Grade, PriceAtOrBefore, Round4;
    var e := EventAt(2400000, Quarters(close), TEN_MINUTE_AVERAGE);
    SeenQuarters(close);
    SeenPriceIsCovering();
    CoveringEvent(close);
    var f := BuildFeatures(e, COVERING_MARKET, sqrt);
    CoveringFeatures(e, sqrt);
    CoveringScore(f.spreadBps.value);
    assert Rejections(e, f) == [];
  }

  lemma SpanningAverages(close: int)
    ensures AveragePrice(Quarters(close as real), 2400000, 60) == Some(110.0)
    ensures AveragePrice(Quarters(close as real), 2940000, 60) == Some(close as real)
  {
    hide Filter, MeanClose;
    TripleFiltered(EARLIER, COVERING, Spanning(close as real), Overlapping(2400000, 2460000));
    TripleFiltered(EARLIER, COVERING, Spanning(close as real), Overlapping(2940000, 3000000));
    assert Filter(Quarters(close as real), Overlapping(2400000, 2460000)) == [COVERING];
    assert Filter(Quarters(close as real), Overlapping(2940000, 3000000)) == [Spanning(close as real)];
    OneMean(COVERING, 110);
    OneMean(Spanning(close as real), close);
  }

  /** Fifteen-minute candles do look ahead: the same signal of the same window, on histories that agree on everything
      closed by its end, wins or loses by the close of a candle that is open for another ten minutes. */
  lemma AverageRuleLooksAhead(checkedAt: int, sqrt: real -> real)
    requires checkedAt >= CloseMs(Spanning(111.0))
    ensures AgreeUntil(Quarters(111.0), Quarters(109.0), 3000000)
    ensures ResultAt(2400000, Quarters(111.0), TEN_MINUTE_AVERAGE, checkedAt, sqrt).status == Win
    ensures ResultAt(2400000, Quarters(109.0), TEN_MINUTE_AVERAGE, checkedAt, sqrt).status == Loss
  {
    hide Filter, EventAt, SignalAt, AveragePrice;
    SeenQuarters(111.0);
    SeenQuarters(109.0);
    CoveringSignal(111.0, sqrt);
    CoveringSignal(109.0, sqrt);
    EventRule(2400000, Quarters(111.0), TEN_MINUTE_AVERAGE);
    EventRule(2400000, Quarters(109.0), TEN_MINUTE_AVERAGE);
    SpanningAverages(111);
    SpanningAverages(109);
  }
}
