/** Serving candles for a chart: how far back a request may reach, when the local cache is good enough, and
    whether a live download fits the default number of pages. */
module MarketDataKlines {
  import opened Candles
  import opened History
  import opened HistoryLaws
  import opened Multiples
  import opened Rounding
  import opened Sorting

  // ----- cache coverage

  function Itself(t: int): int { t }

  function ExpectedCount(start: int, end: int, step: int): int
    requires step > 0
  {
    MaxInt(1, (end - start) / step)
  }

  predicate StartsInTime(sorted: seq<int>, start: int, step: int) { sorted != [] && sorted[0] <= start + step }

  predicate EndsInTime(sorted: seq<int>, end: int, step: int) {
    sorted != [] && sorted[|sorted| - 1] >= end - step * 2
  }

  predicate HasGap(sorted: seq<int>, step: int) {
    exists i :: 0 < i < |sorted| && sorted[i] - sorted[i - 1] > step
  }

  predicate CountSuffices(count: int, start: int, end: int, step: int)
    requires step > 0
  {
    count >= MaxInt(1, ExpectedCount(start, end, step) * 8 / 10)
  }

  /** `coverageSummary(...).sufficient`, from the opening times of the stored candles in any order. */
  function Sufficient(openTimes: seq<int>, start: int, end: int, step: int): bool
    requires step > 0
  {
    var sorted := SortBy(openTimes, Itself);
    && sorted != []
    && StartsInTime(sorted, start, step)
    && EndsInTime(sorted, end, step)
    && CountSuffices(|sorted|, start, end, step)
    && !HasGap(sorted, step)
  }

  /** Walking up a gapless list, the last opening at or before an instant is less than a step before it. */
  lemma {:induction false} LastOpeningIsRecent(sorted: seq<int>, t: int, step: int, k: nat)
    requires step > 0 && k < |sorted| && sorted[k] <= t <= sorted[|sorted| - 1]
    requires !HasGap(sorted, step)
    ensures exists i :: 0 <= i < |sorted| && t - step < sorted[i] <= t
    decreases |sorted| - k
  {
    if t - step >= sorted[k] {
      assert k + 1 < |sorted|;
      assert sorted[k + 1] - sorted[k] <= step;
      LastOpeningIsRecent(sorted, t, step, k + 1);
    }
  }

  /** If the cache counts as sufficient, every instant from one interval after the start to two intervals before
      the end has a stored candle that opened less than an interval before it. */
  lemma SufficientCoversTheRange(openTimes: seq<int>, start: int, end: int, step: int, t: int)
    requires step > 0 && Sufficient(openTimes, start, end, step)
    requires start + step <= t <= end - step * 2
    ensures exists open :: open in openTimes && t - step < open <= t
  {
    hide SortBy, HasGap;
    var sorted := SortBy(openTimes, Itself);
    SortMembers(openTimes, Itself);
    LastOpeningIsRecent(sorted, t, step, 0);
    var i :| 0 <= i < |sorted| && t - step < sorted[i] <= t;
    assert sorted[i] in sorted;
  }

  lemma {:induction false} GaplessReach(sorted: seq<int>, step: int, k: nat)
    requires step > 0 && k < |sorted| && !HasGap(sorted, step)
    ensures sorted[k] - sorted[0] <= k * step
  {
    if k > 0 {
      GaplessReach(sorted, step, k - 1);
      assert sorted[k] - sorted[k - 1] <= step;
      assert k * step == (k - 1) * step + step;
    }
  }

  predicate OtherTests(sorted: seq<int>, start: int, end: int, step: int)
    requires step > 0
  {
    StartsInTime(sorted, start, step) && EndsInTime(sorted, end, step) && !HasGap(sorted, step)
  }

  /** The range is exactly three, four or five intervals long. */
  predicate ShortExactRange(start: int, end: int, step: int) {
    end - start == 3 * step || end - start == 4 * step || end - start == 5 * step
  }

  lemma OthersImplyCount(sorted: seq<int>, start: int, end: int, step: int)
    requires step > 0 && OtherTests(sorted, start, end, step) && !ShortExactRange(start, end, step)
    ensures CountSuffices(|sorted|, start, end, step)
  {
    hide HasGap;
    var n := |sorted|;
    GaplessReach(sorted, step, n - 1);
    assert (n + 2) * step == (n - 1) * step + 3 * step;
    var e, r := (end - start) / step, (end - start) % step;
    assert end - start == e * step + r;
    assert (n + 2) * step >= e * step + r;
    CountFromReach(n, e, r, step);
    assert r == 0 ==> e != 3 && e != 4 && e != 5;
  }

  lemma CountFromReach(n: int, e: int, r: int, step: int)
    requires step > 0 && 0 <= r && (n + 2) * step >= e * step + r
    ensures n + 2 >= e && (r > 0 ==> n + 2 > e)
  {
    if n + 2 < e {
      TimesMonotone(n + 3, e, step);
    }
  }

  /** The eighty-percent count test is implied by the other three tests, for every cache content, if and only if
      the range is not exactly three, four or five intervals long. */
  lemma CountTestExactly(start: int, end: int, step: int)
    requires step > 0
    ensures (forall sorted :: OtherTests(sorted, start, end, step) ==> CountSuffices(|sorted|, start, end, step))
       <==> !ShortExactRange(start, end, step)
  {
    if ShortExactRange(start, end, step) {
      var e := if end - start == 3 * step then 3 else if end - start == 4 * step then 4 else 5;
      var sparse :=
        if e == 3 then [start + step]
        else if e == 4 then [start + step, start + 2 * step]
        else [start + step, start + 2 * step, start + 3 * step];
      QuotientUnique(end - start, step, e, 0);
      assert OtherTests(sparse, start, end, step) && !CountSuffices(|sparse|, start, end, step);
    } else {
      forall sorted | OtherTests(sorted, start, end, step)
        ensures CountSuffices(|sorted|, start, end, step)
      {
        OthersImplyCount(sorted, start, end, step);
      }
    }
  }

  /** The openings of `n` candles without a gap. */
  function Grid(first: int, step: int, n: nat): (openTimes: seq<int>)
    ensures |openTimes| == n && forall k :: 0 <= k < n ==> openTimes[k] == first + k * step
  {
    seq(n, k => first + k * step)
  }

  lemma GridHasNoGap(first: int, step: int, n: nat)
    ensures !HasGap(Grid(first, step, n), step)
  {
    var grid := Grid(first, step, n);
    forall i | 0 < i < n
      ensures grid[i] - grid[i - 1] <= step
    {
      assert i * step == (i - 1) * step + step;
    }
  }

  /** A cache without a gap, in any order, is sufficient exactly when it begins at most one interval after the
      start, ends at most two before the end and holds eighty percent of the expected candles. */
  lemma GaplessCacheExactly(openTimes: seq<int>, first: int, n: nat, start: int, end: int, step: int)
    requires step > 0 && n > 0 && SortBy(openTimes, Itself) == Grid(first, step, n)
    ensures Sufficient(openTimes, start, end, step) <==>
              && first <= start + step && first + (n - 1) * step >= end - 2 * step
              && n >= MaxInt(1, MaxInt(1, (end - start) / step) * 8 / 10)
  {
    hide HasGap;
    GridHasNoGap(first, step, n);
  }

  /** A cache with every candle of the range is sufficient, in whatever order it is stored. */
  lemma FullCacheCounts(openTimes: seq<int>, start: int, end: int, step: int, n: nat)
    requires step > 0 && start <= end && n >= MaxInt(1, (end - start) / step)
    requires SortBy(openTimes, Itself) == Grid(start, step, n)
    ensures Sufficient(openTimes, start, end, step)
  {
    hide SortBy, Sufficient;
    GaplessCacheExactly(openTimes, start, n, start, end, step);
    GridReachesEnd(start, end, step, n);
  }

  lemma GridReachesEnd(start: int, end: int, step: int, n: nat)
    requires step > 0 && n >= (end - start) / step
    ensures start + (n - 1) * step >= end - 2 * step
  {
    var e := (end - start) / step;
    assert end - start == e * step + (end - start) % step;
    TimesMonotone(e - 1, n - 1, step);
    assert (e - 1) * step == e * step - step;
  }

  /** A hole of more than an interval between two stored openings makes a cache insufficient. */
  lemma HoleIsNoticed(openTimes: seq<int>, a: int, b: int, start: int, end: int, step: int)
    requires step > 0 && a in openTimes && b in openTimes && b - a > step
    requires forall x :: x in openTimes ==> x <= a || b <= x
    ensures !Sufficient(openTimes, start, end, step)
  {
    hide SortBy, HasGap;
    var sorted := SortBy(openTimes, Itself);
    SortMembers(openTimes, Itself);
    SortSorts(openTimes, Itself);
    assert a in sorted && b in sorted;
    var i :| 0 <= i < |sorted| && sorted[i] == a;
    var j :| 0 <= j < |sorted| && sorted[j] == b;
    assert j < |sorted| - 1 ==> Itself(sorted[j]) <= Itself(sorted[|sorted| - 1]);
    forall k | 0 <= k < |sorted|
      ensures !(b - 1 - step < sorted[k] <= b - 1)
    {
      assert sorted[k] in sorted;
    }
    if !HasGap(sorted, step) {
      LastOpeningIsRecent(sorted, b - 1, step, i);
    }
  }

  // ----- ranges and pages

  datatype Range = Day | ThreeDays | Week | Month | Quarter | Year | Everything

  const FIRST_DAY := 1483228800000

  function RangeOrder(r: Range): int {
    match r
    case Day => 0
    case ThreeDays => 1
    case Week => 2
    case Month => 3
    case Quarter => 4
    case Year => 5
    case Everything => 6
  }

  function MaxRange(i: Interval): Range {
    match i
    case M1 => Month
    case M5 => Quarter
    case M10 => Quarter
    case M15 => Quarter
    case M30 => Year
    case H1 => Year
    case H4 => Year
    case D1 => Everything
    case W1 => Everything
    case Month1 => Everything
  }

  function AppliedRange(i: Interval, requested: Range): Range {
    if RangeOrder(requested) > RangeOrder(MaxRange(i)) then MaxRange(i) else requested
  }

  function DurationMs(r: Range, now: int): int {
    match r
    case Day => 86400000
    case ThreeDays => 259200000
    case Week => 604800000
    case Month => 2592000000
    case Quarter => 7776000000
    case Year => 31536000000
    case Everything => now - FIRST_DAY
  }

  /** Ten-minute candles are derived from one-minute candles. */
  function BaseInterval(i: Interval): Interval { if i.M10? then M1 else i }

  function StepOf(i: Interval): (step: int)
    ensures step > 0
  {
    IntervalMs(BaseInterval(i))
  }

  function StartOf(i: Interval, requested: Range, now: int): int { now - DurationMs(AppliedRange(i, requested), now) }

  /** What a chart request downloads: its applied range up to now, with the default page limit and page budget. */
  function Downloaded(data: seq<Row>, i: Interval, requested: Range, now: int): seq<Row> {
    var start := StartOf(i, requested, now);
    var walked := Walk(Server(data, now, DEFAULT_LIMIT, NeverFails), 0, DEFAULT_MAX_PAGES, start, now, StepOf(i), now);
    Conclude(walked, start, now).candles
  }

  function WantedBy(data: seq<Row>, i: Interval, requested: Range, now: int): seq<Row> {
    Wanted(data, StartOf(i, requested, now), now, now)
  }

  /** Candles of one interval, with gaps or without: at least an interval apart, each closing right before its interval
      ends. */
  ghost predicate CandlesOf(data: seq<Row>, step: int) {
    Series(data) && Spaced(data, step) && forall k :: 0 <= k < |data| ==> data[k].closeMs == data[k].openMs + step - 1
  }

  lemma SpacedAppend(s: seq<Row>, x: Row, step: int)
    requires Spaced(s, step) && (s != [] ==> x.openMs - s[|s| - 1].openMs >= step)
    ensures Spaced(s + [x], step)
  {
  }

  lemma LaterThanAll(s: seq<Row>, x: Row, y: Row, step: int)
    requires Ascending(s) && s != [] && x.openMs - s[|s| - 1].openMs >= step && y in s
    ensures x.openMs - y.openMs >= step
  {
    var i :| 0 <= i < |s| && s[i] == y;
  }

  lemma SpacedInit(s: seq<Row>, step: int)
    requires Ascending(s) && Spaced(s, step) && s != []
    ensures Ascending(s[..|s| - 1]) && Spaced(s[..|s| - 1], step)
    ensures |s| > 1 ==> s[|s| - 1].openMs - s[|s| - 2].openMs >= step
  {
  }

  lemma {:induction false} FilterSpaced(data: seq<Row>, p: Row -> bool, step: int)
    requires Ascending(data) && Spaced(data, step)
    ensures Spaced(Filter(data, p), step)
  {
    if data != [] {
      hide Spaced, Ascending;
      var m := |data| - 1;
      var before := Filter(data[..m], p);
      SpacedInit(data, step);
      FilterSpaced(data[..m], p, step);
      if p(data[m]) {
        if before != [] {
          FilterMembers(data[..m], p);
          assert before[|before| - 1] in before;
          LaterThanAll(data[..m], data[m], before[|before| - 1], step);
        }
        SpacedAppend(before, data[m], step);
      }
    } else {
      assert Filter(data, p) == data;
    }
  }

  /** The closed candles of a range fit it. */
  lemma WantedFit(data: seq<Row>, start: int, now: int, step: int)
    requires CandlesOf(data, step) && step > 0 && start <= now
    ensures var w := Wanted(data, start, now, now);
            Spaced(w, step) && |w| * step <= now - start
  {
    hide Filter;
    var kept := Filter(data, OpenIn(start, now));
    var w := Wanted(data, start, now, now);
    FilterSeries(data, OpenIn(start, now));
    FilterSpaced(data, OpenIn(start, now), step);
    FilterSpaced(kept, ClosedAt(now), step);
    FilterMembers(data, OpenIn(start, now));
    FilterMembers(kept, ClosedAt(now));
    if w != [] {
      var n := |w| - 1;
      assert w[0] in w && w[n] in w;
      SpacedApart(w, 0, n, step);
      assert (n + 1) * step == n * step + step;
    }
  }

  lemma FewEnough(n: nat, duration: int, step: int)
    requires step > 0 && n * step <= duration < 80001 * step
    ensures n <= 80000
  {
    if n > 80000 {
      TimesMonotone(80001, n, step);
    }
  }

  lemma DownloadFits(data: seq<Row>, i: Interval, requested: Range, now: int)
    requires now >= FIRST_DAY && CandlesOf(data, StepOf(i))
    requires DurationMs(AppliedRange(i, requested), now) < 80001 * StepOf(i)
    ensures Downloaded(data, i, requested, now) == WantedBy(data, i, requested, now)
  {
    hide Wanted, Walk, AllServed, JointsHold, Spaced, AppliedRange, StepOf, DurationMs, Conclude;
    var start := StartOf(i, requested, now);
    DurationPositive(AppliedRange(i, requested), now);
    var w := Wanted(data, start, now, now);
    WantedFit(data, start, now, StepOf(i));
    FewEnough(|w|, now - start, StepOf(i));
    WantedFacts(data, start, now, now);
    SeriesAscends(w);
    PagesSuffice(w, start, now, DEFAULT_LIMIT, StepOf(i));
    ServedByBudget(w, DEFAULT_LIMIT, StepOf(i), DEFAULT_MAX_PAGES);
    PagedEqualsUnpaged(data, start, now, StepOf(i), now, DEFAULT_LIMIT, NeverFails, DEFAULT_MAX_PAGES);
  }

  lemma DurationPositive(r: Range, now: int)
    requires now >= FIRST_DAY
    ensures DurationMs(r, now) >= 0
  {
  }

  /** A candle for every interval from `start` on. */
  function FullSeries(start: int, step: int, n: nat): (data: seq<Row>)
    ensures |data| == n && forall k :: 0 <= k < n ==> data[k] == FullRow(start, step, k)
  {
    seq(n, k => FullRow(start, step, k))
  }

  function FullRow(start: int, step: int, k: int): Row {
    Row(start + k * step, start + k * step + step - 1, k)
  }

  lemma FullRowsApart(start: int, step: int, i: int, j: int)
    requires step > 0 && i < j
    ensures FullRow(start, step, j).openMs >= FullRow(start, step, i).openMs + step
  {
    TimesMonotone(i + 1, j, step);
    assert (i + 1) * step == i * step + step;
  }

  lemma FullSeriesIsCandles(start: int, step: int, n: nat)
    requires step > 0
    ensures CandlesOf(FullSeries(start, step, n), step)
  {
    var data := FullSeries(start, step, n);
    forall i, j | 0 <= i < j < n
      ensures data[j].openMs >= data[i].openMs + step
    {
      FullRowsApart(start, step, i, j);
    }
  }

  lemma FullSeriesIsWanted(start: int, now: int, step: int, n: nat)
    requires step > 0 && n * step <= now - start
    ensures Wanted(FullSeries(start, step, n), start, now, now) == FullSeries(start, step, n)
  {
    hide Filter, FullSeries;
    var data := FullSeries(start, step, n);
    forall r | r in data
      ensures OpenIn(start, now)(r) && ClosedAt(now)(r)
    {
      var k :| 0 <= k < n && data[k] == r;
      TimesMonotone(0, k, step);
      TimesMonotone(k + 1, n, step);
      assert (k + 1) * step == k * step + step;
    }
    FilterAll(data, OpenIn(start, now));
    FilterAll(data, ClosedAt(now));
  }

  lemma FullSeriesIsCut(i: Interval, requested: Range, now: int)
    requires DurationMs(AppliedRange(i, requested), now) >= 80001 * StepOf(i)
    ensures var data := FullSeries(StartOf(i, requested, now), StepOf(i), 80001);
            CandlesOf(data, StepOf(i)) && Downloaded(data, i, requested, now) != WantedBy(data, i, requested, now)
  {
    hide Wanted, Walk, AllServed, FullSeries, AppliedRange, StepOf, DurationMs, CandlesOf, Conclude;
    var start, step := StartOf(i, requested, now), StepOf(i);
    var data := FullSeries(start, step, 80001);
    FullSeriesIsCandles(start, step, 80001);
    FullSeriesIsWanted(start, now, step, 80001);
    CandlesAreSeries(data, step);
    PagedEqualsUnpaged(data, start, now, step, now, DEFAULT_LIMIT, NeverFails, DEFAULT_MAX_PAGES);
    OneRowTooMany(data, step);
  }

  lemma CandlesAreSeries(data: seq<Row>, step: int)
    requires CandlesOf(data, step)
    ensures Series(data)
  {
  }

  lemma OneRowTooMany(w: seq<Row>, step: int)
    requires |w| == 80001
    ensures !AllServed(w, DEFAULT_LIMIT, step, DEFAULT_MAX_PAGES, NeverFails, 0)
  {
    assert !PageServed(w, DEFAULT_LIMIT, step, DEFAULT_MAX_PAGES, NeverFails, 0, 80);
  }

  /** A chart request downloads every closed candle of its range, from any series of candles of its interval, if and
      only if it is not for ten-minute candles over a quarter and, over everything, spans fewer than 80001 intervals. */
  lemma DefaultPagesExactly(i: Interval, requested: Range, now: int)
    requires now >= FIRST_DAY
    ensures (forall data :: CandlesOf(data, StepOf(i)) ==>
               Downloaded(data, i, requested, now) == WantedBy(data, i, requested, now))
       <==> if AppliedRange(i, requested).Everything? then now - FIRST_DAY < 80001 * IntervalMs(i)
            else !(i.M10? && AppliedRange(i, requested).Quarter?)
  {
    hide Downloaded, WantedBy, CandlesOf;
    FittingRanges(i, requested, now);
    if DurationMs(AppliedRange(i, requested), now) < 80001 * StepOf(i) {
      forall data | CandlesOf(data, StepOf(i))
        ensures Downloaded(data, i, requested, now) == WantedBy(data, i, requested, now)
      {
        DownloadFits(data, i, requested, now);
      }
    } else {
      FullSeriesIsCut(i, requested, now);
    }
  }

  lemma FittingRanges(i: Interval, requested: Range, now: int)
    ensures DurationMs(AppliedRange(i, requested), now) < 80001 * StepOf(i) <==>
              if AppliedRange(i, requested).Everything? then now - FIRST_DAY < 80001 * IntervalMs(i)
              else !(i.M10? && AppliedRange(i, requested).Quarter?)
  {
  }

  /** Any series, evenly spaced or not, of which a request wants no more than one page, is downloaded whole: monthly
      candles in particular. */
  lemma OnePageIsWhole(data: seq<Row>, i: Interval, requested: Range, now: int)
    requires Series(data) && |WantedBy(data, i, requested, now)| <= DEFAULT_LIMIT
    ensures Downloaded(data, i, requested, now) == WantedBy(data, i, requested, now)
  {
    hide Wanted, Walk, AllServed, Conclude, StartOf, StepOf;
    var start := StartOf(i, requested, now);
    LastPageServed(Wanted(data, start, now, now), DEFAULT_LIMIT, StepOf(i), DEFAULT_MAX_PAGES, NeverFails, 0);
    PagedEqualsUnpaged(data, start, now, StepOf(i), now, DEFAULT_LIMIT, NeverFails, DEFAULT_MAX_PAGES);
  }

  /** With more wanted rows than eighty full pages hold, the default download is not complete. */
  lemma DefaultBudgetCuts(data: seq<Row>, start: int, end: int, step: int, requestedAt: int, fails: nat -> bool)
    requires |Wanted(data, start, end, requestedAt)| > DEFAULT_MAX_PAGES * DEFAULT_LIMIT
    ensures Walk(Server(data, end, DEFAULT_LIMIT, fails), 0, DEFAULT_MAX_PAGES, start, end, step, requestedAt).rows
         != Wanted(data, start, end, requestedAt)
  {
    RowsFitThePages(data, DEFAULT_LIMIT, fails, 0, DEFAULT_MAX_PAGES, start, end, step, requestedAt);
  }

  /** Ranges count in days of the interval table, months as thirty and quarters as ninety; everything begins with
      the year 2017. A request is cut to the longest range of its interval and is otherwise applied as it is. */
  lemma RangesRead(i: Interval, requested: Range, now: int)
    ensures var day := IntervalMs(D1);
            && DurationMs(Day, now) == day && DurationMs(ThreeDays, now) == 3 * day && DurationMs(Week, now) == 7 * day
            && DurationMs(Month, now) == 30 * day && DurationMs(Quarter, now) == 90 * day
            && DurationMs(Year, now) == 365 * day && DurationMs(Everything, now) == now - 17167 * day
    ensures now >= (17167 + 365) * IntervalMs(D1) ==>
              DurationMs(AppliedRange(i, requested), now)
              == MinInt(DurationMs(requested, now), DurationMs(MaxRange(i), now))
  {
  }
}
