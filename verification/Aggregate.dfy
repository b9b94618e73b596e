/** Deriving coarser candles: sort, stream the candles into buckets of the target interval, flush a bucket
    whenever the next candle belongs to another one. */
module Aggregate {
  import opened Candles
  import opened Multiples
  import opened Rounding
  import opened Sorting

  datatype Warning =
    | CannotDerive
    | Partial(openMs: int, used: int, expected: int)
    | Gap(beforeMs: int)

  datatype Result = Result(candles: seq<Candle>, warnings: seq<Warning>)

  // ----- one bucket

  datatype Stats = Stats(open: real, high: real, low: real, close: real, volume: int, isClosed: bool)

  function StatsOf(s: seq<Candle>): Stats
    requires s != []
  {
    var c := s[|s| - 1];
    var last := Stats(c.open, c.high, c.low, c.close, c.volume, c.isClosed);
    if |s| == 1 then last else Join(StatsOf(s[..|s| - 1]), last)
  }

  /** First open, highest high, lowest low, last close, summed volume, closed when all are. */
  ghost predicate Summarises(r: Stats, s: seq<Candle>)
    requires s != []
  {
    && r.open == s[0].open && r.close == s[|s| - 1].close && r.volume == SumVolume(s)
    && (forall c :: c in s ==> c.high <= r.high) && (exists c :: c in s && c.high == r.high)
    && (forall c :: c in s ==> r.low <= c.low) && (exists c :: c in s && c.low == r.low)
    && (r.isClosed <==> forall c :: c in s ==> c.isClosed)
  }

  lemma {:induction false} StatsSummarise(s: seq<Candle>)
    requires s != []
    ensures Summarises(StatsOf(s), s)
  {
    var m := |s| - 1;
    var c := s[m];
    assert s == s[..m] + [c];
    if m > 0 {
      StatsSummarise(s[..m]);
      var before := StatsOf(s[..m]);
      var h :| h in s[..m] && h.high == before.high;
      var l :| l in s[..m] && l.low == before.low;
      assert h in s && l in s && c in s;
    } else {
      assert c in s;
    }
  }

  function Join(x: Stats, y: Stats): Stats {
    Stats(x.open, Max(x.high, y.high), Min(x.low, y.low), y.close, x.volume + y.volume, x.isClosed && y.isClosed)
  }

  function SumVolume(s: seq<Candle>): int {
    if s == [] then 0 else SumVolume(s[..|s| - 1]) + s[|s| - 1].volume
  }

  function BucketStart(t: int, step: int): int
    requires step > 0
  {
    t / step * step
  }

  function Summary(s: seq<Candle>, target: Interval): Candle
    requires s != []
  {
    var st := StatsOf(s);
    Candle(target, IntervalSeconds(target), BucketStart(s[0].openMs, IntervalMs(target)),
           st.open, st.high, st.low, st.close, st.volume, st.isClosed)
  }

  // ----- the streamed result as a function

  /** The length of the longest prefix whose candles share a bucket with the first one. */
  function RunLength(s: seq<Candle>, step: int): (n: nat)
    requires step > 0 && s != []
    ensures 1 <= n <= |s|
  {
    if |s| == 1 || BucketStart(s[1].openMs, step) != BucketStart(s[0].openMs, step) then 1
    else RunLength(s[1..], step) + 1
  }

  function Buckets(s: seq<Candle>, target: Interval): seq<Candle>
    decreases |s|
  {
    if s == [] then []
    else
      var n := RunLength(s, IntervalMs(target));
      [Summary(s[..n], target)] + Buckets(s[n..], target)
  }

  predicate Derivable(source: Interval, target: Interval) {
    IntervalMs(target) > IntervalMs(source) && IntervalMs(target) % IntervalMs(source) == 0
  }

  /** The candles that the program derives, from candles in any order. */
  function Derived(candles: seq<Candle>, target: Interval): seq<Candle> {
    var sorted := SortBy(candles, OpenMs);
    if sorted == [] || !Derivable(sorted[0].interval, target) then [] else Buckets(sorted, target)
  }

  predicate OneBucket(s: seq<Candle>, step: int)
    requires step > 0
  {
    s != [] && forall i :: 0 <= i < |s| ==> BucketStart(s[i].openMs, step) == BucketStart(s[0].openMs, step)
  }

  predicate Breaks(a: seq<Candle>, b: seq<Candle>, step: int)
    requires step > 0
  {
    a == [] || b == [] || BucketStart(a[|a| - 1].openMs, step) != BucketStart(b[0].openMs, step)
  }

  lemma {:induction false} RunOf(a: seq<Candle>, b: seq<Candle>, step: int)
    requires step > 0 && OneBucket(a, step) && Breaks(a, b, step)
    ensures RunLength(a + b, step) == |a|
  {
    hide BucketStart;
    if |a| > 1 {
      assert (a + b)[1] == a[1] && (a + b)[1..] == a[1..] + b;
      RunOf(a[1..], b, step);
    } else if b != [] {
      assert (a + b)[1] == b[0];
    }
  }

  lemma BucketsHead(a: seq<Candle>, b: seq<Candle>, target: Interval)
    requires OneBucket(a, IntervalMs(target)) && Breaks(a, b, IntervalMs(target))
    ensures Buckets(a + b, target) == [Summary(a, target)] + Buckets(b, target)
  {
    hide BucketStart, IntervalSeconds, Summary, RunLength, OneBucket, Breaks;
    RunOf(a, b, IntervalMs(target));
    assert (a + b)[..|a|] == a && (a + b)[|a|..] == b;
  }

  lemma {:induction false} RunIsOneBucket(s: seq<Candle>, step: int)
    requires step > 0 && s != []
    ensures var n := RunLength(s, step); OneBucket(s[..n], step) && Breaks(s[..n], s[n..], step)
  {
    hide BucketStart;
    var n := RunLength(s, step);
    if n > 1 {
      RunIsOneBucket(s[1..], step);
      assert forall i :: 1 <= i < n ==> s[..n][i] == s[1..][..n - 1][i - 1];
    }
  }

  lemma BucketsUnfold(s: seq<Candle>, target: Interval)
    requires s != []
    ensures var n := RunLength(s, IntervalMs(target));
            && Buckets(s, target) == [Summary(s[..n], target)] + Buckets(s[n..], target)
            && s == s[..n] + s[n..]
            && OneBucket(s[..n], IntervalMs(target)) && Breaks(s[..n], s[n..], IntervalMs(target))
  {
    hide BucketStart, IntervalSeconds, Summary, RunLength;
    RunIsOneBucket(s, IntervalMs(target));
  }

  lemma EmptyBuckets(target: Interval)
    ensures Buckets([], target) == []
  {
  }

  lemma {:induction false} BucketsSplit(a: seq<Candle>, b: seq<Candle>, target: Interval)
    requires Breaks(a, b, IntervalMs(target))
    ensures Buckets(a + b, target) == Buckets(a, target) + Buckets(b, target)
    decreases |a|
  {
    hide BucketStart, IntervalSeconds, Summary, RunLength, OneBucket, Buckets;
    EmptyBuckets(target);
    if a == [] {
      assert a + b == b;
    } else {
      var n := RunLength(a, IntervalMs(target));
      var x, y := a[..n], a[n..];
      BucketsUnfold(a, target);
      assert x + (y + b) == a + b;
      BucketsHead(x, y + b, target);
      BucketsSplit(y, b, target);
    }
  }

  // ----- the streaming loop

  /** One of the first `upto` candles opens at `t`, more than a source interval after the one before it. */
  ghost predicate GapBefore(s: seq<Candle>, t: int, upto: int, sourceMs: int)
    requires 0 <= upto <= |s|
  {
    exists i :: 0 < i < upto && s[i].openMs == t && s[i].openMs - s[i - 1].openMs > sourceMs
  }

  ghost predicate GapsListed(ws: seq<Warning>, s: seq<Candle>, upto: int, sourceMs: int)
    requires 0 <= upto <= |s|
  {
    forall t :: Gap(t) in ws <==> GapBefore(s, t, upto, sourceMs)
  }

  lemma GapsListNext(ws: seq<Warning>, s: seq<Candle>, upto: int, sourceMs: int)
    requires 0 <= upto < |s| && GapsListed(ws, s, upto, sourceMs)
    ensures GapsListed(
              if upto > 0 && s[upto].openMs - s[upto - 1].openMs > sourceMs then ws + [Gap(s[upto].openMs)] else ws,
              s, upto + 1, sourceMs)
  {
    hide GapBefore;
    var next := if upto > 0 && s[upto].openMs - s[upto - 1].openMs > sourceMs then ws + [Gap(s[upto].openMs)] else ws;
    forall t
      ensures Gap(t) in next <==> GapBefore(s, t, upto + 1, sourceMs)
    {
      GapNext(s, t, upto, sourceMs);
    }
  }

  lemma GapsStayListed(ws: seq<Warning>, more: seq<Warning>, s: seq<Candle>, upto: int, sourceMs: int)
    requires 0 <= upto <= |s| && GapsListed(ws, s, upto, sourceMs)
    requires forall w :: w in more && w.Gap? <==> w in ws && w.Gap?
    ensures GapsListed(more, s, upto, sourceMs)
  {
    hide GapBefore;
  }

  lemma GapNext(s: seq<Candle>, t: int, upto: int, sourceMs: int)
    requires 0 <= upto < |s|
    ensures GapBefore(s, t, upto + 1, sourceMs) <==>
              || GapBefore(s, t, upto, sourceMs)
              || (upto > 0 && s[upto].openMs == t && s[upto].openMs - s[upto - 1].openMs > sourceMs)
  {
  }

  // ----- the buckets that are not full

  function ExpectedPerBucket(source: Interval, target: Interval): nat {
    MaxInt(1, IntervalMs(target) / IntervalMs(source))
  }

  function Short(bucket: seq<Candle>, target: Interval, expected: int): seq<Warning>
    requires bucket != []
  {
    if |bucket| < expected then [Partial(BucketStart(bucket[0].openMs, IntervalMs(target)), |bucket|, expected)] else []
  }

  function Shorts(s: seq<Candle>, target: Interval, expected: int): seq<Warning>
    decreases |s|
  {
    if s == [] then []
    else
      var n := RunLength(s, IntervalMs(target));
      Short(s[..n], target, expected) + Shorts(s[n..], target, expected)
  }

  lemma ShortsHead(a: seq<Candle>, b: seq<Candle>, target: Interval, expected: int)
    requires OneBucket(a, IntervalMs(target)) && Breaks(a, b, IntervalMs(target))
    ensures Shorts(a + b, target, expected) == Short(a, target, expected) + Shorts(b, target, expected)
  {
    hide BucketStart, IntervalSeconds, Short, RunLength, OneBucket, Breaks;
    RunOf(a, b, IntervalMs(target));
    assert (a + b)[..|a|] == a && (a + b)[|a|..] == b;
  }

  predicate IsShort(s: seq<Candle>, w: Warning, target: Interval, expected: int) {
    && w.Partial? && w.expected == expected && 0 < w.used < expected
    && w.used == |Filter(s, InBucket(w.openMs, IntervalMs(target)))|
  }

  /** A warning is raised for exactly the buckets that hold some, but fewer candles than expected. */
  ghost predicate PartialsListed(ws: seq<Warning>, s: seq<Candle>, target: Interval, expected: int) {
    forall w: Warning :: w in ws && w.Partial? <==> IsShort(s, w, target, expected)
  }

  lemma OneShort(s: seq<Candle>, w: Warning, target: Interval, expected: int)
    requires s != [] && w.Partial? && OneBucket(s, IntervalMs(target))
    requires w.openMs == BucketStart(s[0].openMs, IntervalMs(target))
    ensures w in Short(s, target, expected) <==> IsShort(s, w, target, expected)
  {
    hide BucketStart, IntervalSeconds;
    FilterAll(s, InBucket(w.openMs, IntervalMs(target)));
  }

  lemma {:induction false} ShortsOpenIn(s: seq<Candle>, w: Warning, target: Interval, expected: int)
    requires w in Shorts(s, target, expected)
    ensures w.Partial? && exists c :: c in s && w.openMs == BucketStart(c.openMs, IntervalMs(target))
    decreases |s|
  {
    hide BucketStart, IntervalSeconds, RunLength;
    var n := RunLength(s, IntervalMs(target));
    if w in Shorts(s[n..], target, expected) {
      ShortsOpenIn(s[n..], w, target, expected);
      var c :| c in s[n..] && w.openMs == BucketStart(c.openMs, IntervalMs(target));
      assert c in s;
    } else {
      assert s[0] in s;
    }
  }

  lemma {:induction false} ShortsExactly(s: seq<Candle>, w: Warning, target: Interval, expected: int)
    requires SortedBy(s, OpenMs)
    ensures w in Shorts(s, target, expected) <==> IsShort(s, w, target, expected)
    decreases |s|
  {
    hide BucketStart, IntervalSeconds, RunLength, Short;
    if s != [] {
      var step := IntervalMs(target);
      var n := RunLength(s, step);
      var run, rest := s[..n], s[n..];
      RunIsOneBucket(s, step);
      FirstRunIsABucket(s, n, step);
      ShortsExactly(rest, w, target, expected);
      ShortsSplit(s, n, w, target, expected);
    }
  }

  lemma NoneInBucket(run: seq<Candle>, start: int, step: int)
    requires step > 0 && OneBucket(run, step) && BucketStart(run[0].openMs, step) != start
    ensures Filter(run, InBucket(start, step)) == []
  {
    hide BucketStart;
    FilterNone(run, InBucket(start, step));
  }

  lemma ShortsSplit(s: seq<Candle>, n: nat, w: Warning, target: Interval, expected: int)
    requires 0 < n <= |s| && n == RunLength(s, IntervalMs(target)) && OneBucket(s[..n], IntervalMs(target))
    requires forall c :: c in s[n..] ==>
               BucketStart(c.openMs, IntervalMs(target)) > BucketStart(s[0].openMs, IntervalMs(target))
    requires w in Shorts(s[n..], target, expected) <==> IsShort(s[n..], w, target, expected)
    ensures w in Shorts(s, target, expected) <==> IsShort(s, w, target, expected)
  {
    hide BucketStart, IntervalSeconds, RunLength, OneBucket, Filter;
    var run, rest := s[..n], s[n..];
    assert s == run + rest;
    if w.Partial? {
      var p := InBucket(w.openMs, IntervalMs(target));
      FilterConcat(run, rest, p);
      if w.openMs == BucketStart(s[0].openMs, IntervalMs(target)) {
        FilterNone(rest, p);
        OneShort(run, w, target, expected);
      } else {
        NoneInBucket(run, w.openMs, IntervalMs(target));
      }
    } else if w in Shorts(rest, target, expected) {
      ShortsOpenIn(rest, w, target, expected);
    }
  }

  lemma ShortsListed(candles: seq<Candle>, ws: seq<Warning>, target: Interval, expected: int)
    requires SamePartials(ws, Shorts(SortBy(candles, OpenMs), target, expected))
    ensures PartialsListed(ws, candles, target, expected)
  {
    hide SortBy, Shorts, Filter, InBucket;
    var sorted := SortBy(candles, OpenMs);
    SortSorts(candles, OpenMs);
    forall w
      ensures w in ws && w.Partial? <==> IsShort(candles, w, target, expected)
    {
      ShortsExactly(sorted, w, target, expected);
      if w.Partial? {
        var p := InBucket(w.openMs, IntervalMs(target));
        FilterSort(candles, OpenMs, p);
        assert |SortBy(Filter(candles, p), OpenMs)| == |Filter(candles, p)|;
      }
    }
  }

  ghost predicate SamePartials(ws: seq<Warning>, shorts: seq<Warning>) {
    forall w: Warning :: w.Partial? ==> (w in ws <==> w in shorts)
  }

  method Flush(aggregated: seq<Candle>, warnings: seq<Warning>, bucket: seq<Candle>, target: Interval, expected: int)
    returns (candles: seq<Candle>, warned: seq<Warning>)
    requires bucket != []
    ensures candles == aggregated + [Summary(bucket, target)]
    ensures warned == warnings + Short(bucket, target, expected)
  {
    warned := warnings;
    if |bucket| < expected {
      warned := warned + [Partial(BucketStart(bucket[0].openMs, IntervalMs(target)), |bucket|, expected)];
    }
    candles := aggregated + [Summary(bucket, target)];
  }

  /** What the loop keeps: flushed candles and their warnings, then those of the open bucket and the rest. */
  ghost predicate Streaming(sorted: seq<Candle>, index: int, aggregated: seq<Candle>, shorts: seq<Warning>,
                            bucket: seq<Candle>, target: Interval, expected: int)
    requires 0 <= index <= |sorted|
  {
    && (bucket != [] ==> OneBucket(bucket, IntervalMs(target)))
    && Buckets(sorted, target) == aggregated + Buckets(bucket + sorted[index..], target)
    && Shorts(sorted, target, expected) == shorts + Shorts(bucket + sorted[index..], target, expected)
  }

  lemma StreamingStarts(sorted: seq<Candle>, target: Interval, expected: int)
    ensures Streaming(sorted, 0, [], [], [], target, expected)
  {
    hide Buckets, Shorts;
    assert [] + sorted[0..] == sorted;
  }

  lemma StreamingFlush(sorted: seq<Candle>, index: int, aggregated: seq<Candle>, shorts: seq<Warning>,
                       bucket: seq<Candle>, target: Interval, expected: int)
    requires 0 <= index <= |sorted| && bucket != []
    requires Streaming(sorted, index, aggregated, shorts, bucket, target, expected)
    requires index < |sorted| ==>
               BucketStart(sorted[index].openMs, IntervalMs(target))
               != BucketStart(bucket[0].openMs, IntervalMs(target))
    ensures Streaming(sorted, index, aggregated + [Summary(bucket, target)], shorts + Short(bucket, target, expected),
                      [], target, expected)
  {
    hide Buckets, Shorts, Short, BucketStart, IntervalSeconds, Summary;
    BucketsHead(bucket, sorted[index..], target);
    ShortsHead(bucket, sorted[index..], target, expected);
    assert [] + sorted[index..] == sorted[index..];
  }

  lemma StreamingPush(sorted: seq<Candle>, index: int, aggregated: seq<Candle>, shorts: seq<Warning>,
                      bucket: seq<Candle>, target: Interval, expected: int)
    requires 0 <= index < |sorted| && Streaming(sorted, index, aggregated, shorts, bucket, target, expected)
    requires bucket != [] ==>
               BucketStart(sorted[index].openMs, IntervalMs(target))
               == BucketStart(bucket[0].openMs, IntervalMs(target))
    ensures Streaming(sorted, index + 1, aggregated, shorts, bucket + [sorted[index]], target, expected)
  {
    hide Buckets, Shorts, BucketStart, IntervalSeconds;
    assert bucket + sorted[index..] == (bucket + [sorted[index]]) + sorted[index + 1..];
  }

  method AggregateCandlesToInterval(candles: seq<Candle>, target: Interval) returns (r: Result)
    ensures r.candles == Derived(candles, target)
    ensures candles == [] ==> r.warnings == []
    ensures var sorted := SortBy(candles, OpenMs);
            sorted != [] && !Derivable(sorted[0].interval, target) ==> r.warnings == [CannotDerive]
    ensures var sorted := SortBy(candles, OpenMs);
            sorted != [] && Derivable(sorted[0].interval, target) ==>
              && GapsListed(r.warnings, sorted, |sorted|, IntervalMs(sorted[0].interval))
              && PartialsListed(r.warnings, candles, target, ExpectedPerBucket(sorted[0].interval, target))
              && CannotDerive !in r.warnings && Distinct(r.warnings)
  {
    hide SortBy, Derivable, Buckets, Shorts, GapsListed, PartialsListed, SamePartials, Distinct, ExpectedPerBucket;
    EmptySorted();
    if candles == [] {
      return Result([], []);
    }
    var sorted := SortBy(candles, OpenMs);
    if !Derivable(sorted[0].interval, target) {
      return Result([], [CannotDerive]);
    }
    r := StreamSorted(sorted, target);
    ShortsListed(candles, r.warnings, target, ExpectedPerBucket(sorted[0].interval, target));
  }

  method StreamSorted(sorted: seq<Candle>, target: Interval) returns (r: Result)
    requires sorted != []
    ensures r.candles == Buckets(sorted, target)
    ensures GapsListed(r.warnings, sorted, |sorted|, IntervalMs(sorted[0].interval))
    ensures SamePartials(r.warnings, Shorts(sorted, target, ExpectedPerBucket(sorted[0].interval, target)))
    ensures CannotDerive !in r.warnings && Distinct(r.warnings)
  {
    hide BucketStart, IntervalSeconds, Summary, Buckets, Shorts, GapsListed, Streaming, SamePartials, Distinct,
      ExpectedPerBucket;
    var sourceMs := IntervalMs(sorted[0].interval);
    var targetMs := IntervalMs(target);
    var expectedPerBucket := ExpectedPerBucket(sorted[0].interval, target);
    var warnings: seq<Warning> := [];
    var aggregated: seq<Candle> := [];
    var bucket: seq<Candle> := [];
    ghost var shorts: seq<Warning> := [];
    NoGapYet(sorted, sourceMs);
    NoPartialYet();
    StreamingStarts(sorted, target, expectedPerBucket);
    for index := 0 to |sorted|
      invariant bucket == [] <==> index == 0
      invariant Streaming(sorted, index, aggregated, shorts, bucket, target, expectedPerBucket)
      invariant GapsListed(warnings, sorted, index, sourceMs)
      invariant SamePartials(warnings, shorts) && CannotDerive !in warnings
    {
      var candle := sorted[index];
      GapsListNext(warnings, sorted, index, sourceMs);
      if index > 0 && candle.openMs - sorted[index - 1].openMs > sourceMs {
        GapIsNotPartial(warnings, shorts, candle.openMs);
        warnings := warnings + [Gap(candle.openMs)];
      }
      if bucket != [] && BucketStart(candle.openMs, targetMs) != BucketStart(bucket[0].openMs, targetMs) {
        StreamingFlush(sorted, index, aggregated, shorts, bucket, target, expectedPerBucket);
        ghost var short := Short(bucket, target, expectedPerBucket);
        ShortIsNotGap(warnings, shorts, short, sorted, index + 1, sourceMs);
        aggregated, warnings := Flush(aggregated, warnings, bucket, target, expectedPerBucket);
        shorts := shorts + short;
        bucket := [];
      }
      StreamingPush(sorted, index, aggregated, shorts, bucket, target, expectedPerBucket);
      bucket := bucket + [candle];
    }
    StreamingFlush(sorted, |sorted|, aggregated, shorts, bucket, target, expectedPerBucket);
    ghost var short := Short(bucket, target, expectedPerBucket);
    ShortIsNotGap(warnings, shorts, short, sorted, |sorted|, sourceMs);
    aggregated, warnings := Flush(aggregated, warnings, bucket, target, expectedPerBucket);
    shorts := shorts + short;
    UniqueKeeps(warnings, shorts, sorted, sourceMs);
    StreamingEnds(sorted, aggregated, shorts, target, expectedPerBucket);
    r := Result(aggregated, Unique(warnings));
  }

  lemma StreamingEnds(sorted: seq<Candle>, aggregated: seq<Candle>, shorts: seq<Warning>, target: Interval,
                      expected: int)
    requires Streaming(sorted, |sorted|, aggregated, shorts, [], target, expected)
    ensures aggregated == Buckets(sorted, target) && shorts == Shorts(sorted, target, expected)
  {
    hide BucketStart, Summary, RunLength;
    assert [] + sorted[|sorted|..] == [];
  }

  lemma NoPartialYet()
    ensures SamePartials([], [])
  {
  }

  lemma GapIsNotPartial(ws: seq<Warning>, shorts: seq<Warning>, t: int)
    requires SamePartials(ws, shorts)
    ensures SamePartials(ws + [Gap(t)], shorts)
  {
  }

  lemma ShortIsNotGap(ws: seq<Warning>, shorts: seq<Warning>, short: seq<Warning>, s: seq<Candle>, upto: int,
                      sourceMs: int)
    requires 0 <= upto <= |s| && GapsListed(ws, s, upto, sourceMs) && SamePartials(ws, shorts)
    requires forall w :: w in short ==> w.Partial?
    ensures GapsListed(ws + short, s, upto, sourceMs) && SamePartials(ws + short, shorts + short)
    ensures CannotDerive in ws + short ==> CannotDerive in ws
  {
    hide GapBefore;
    GapsStayListed(ws, ws + short, s, upto, sourceMs);
  }

  lemma UniqueKeeps(ws: seq<Warning>, shorts: seq<Warning>, s: seq<Candle>, sourceMs: int)
    requires GapsListed(ws, s, |s|, sourceMs) && SamePartials(ws, shorts)
    ensures GapsListed(Unique(ws), s, |s|, sourceMs) && SamePartials(Unique(ws), shorts)
    ensures Distinct(Unique(ws)) && (CannotDerive in Unique(ws) ==> CannotDerive in ws)
  {
    hide GapBefore;
    UniqueIsDistinct(ws);
    GapsStayListed(ws, Unique(ws), s, |s|, sourceMs);
  }

  lemma NoGapYet(s: seq<Candle>, sourceMs: int)
    ensures GapsListed([], s, 0, sourceMs)
  {
  }

  lemma EmptySorted()
    ensures SortBy<Candle>([], OpenMs) == []
  {
  }

  // ----- the result is a group-by

  function InBucket(start: int, step: int): Candle -> bool
    requires step > 0
  {
    (c: Candle) => BucketStart(c.openMs, step) == start
  }

  ghost predicate Increasing(out: seq<Candle>) {
    forall i, j :: 0 <= i < j < |out| ==> out[i].openMs < out[j].openMs
  }

  ghost predicate HasBucket(out: seq<Candle>, start: int) {
    exists k :: 0 <= k < |out| && out[k].openMs == start
  }

  ghost predicate GroupAt(s: seq<Candle>, o: Candle, target: Interval) {
    var members := SortBy(Filter(s, InBucket(o.openMs, IntervalMs(target))), OpenMs);
    members != [] && o == Summary(members, target)
  }

  /** Grouping by bucket: one candle per non-empty bucket, in increasing order, each the summary of exactly the
      candles of its bucket in opening order. */
  ghost predicate GroupsBy(s: seq<Candle>, out: seq<Candle>, target: Interval) {
    && Increasing(out)
    && (forall c :: c in s ==> HasBucket(out, BucketStart(c.openMs, IntervalMs(target))))
    && (forall k :: 0 <= k < |out| ==> GroupAt(s, out[k], target))
  }

  lemma BucketMonotone(x: int, y: int, step: int)
    requires step > 0 && x <= y
    ensures BucketStart(x, step) <= BucketStart(y, step)
  {
    DivMonotone(x, y, step);
    TimesMonotone(x / step, y / step, step);
  }

  lemma MembersSorted(s: seq<Candle>, start: int, step: int)
    requires step > 0 && SortedBy(s, OpenMs)
    ensures SortBy(Filter(s, InBucket(start, step)), OpenMs) == Filter(s, InBucket(start, step))
  {
    hide BucketStart;
    FilterSort(s, OpenMs, InBucket(start, step));
    SortedIsFixed(s, OpenMs);
  }

  /** In sorted candles, the first run is a whole bucket and everything after it lies in later buckets. */
  lemma FirstRunIsABucket(s: seq<Candle>, n: nat, step: int)
    requires step > 0 && s != [] && SortedBy(s, OpenMs) && n == RunLength(s, step)
    ensures forall c :: c in s[n..] ==> BucketStart(c.openMs, step) > BucketStart(s[0].openMs, step)
    ensures Filter(s, InBucket(BucketStart(s[0].openMs, step), step)) == s[..n]
  {
    hide BucketStart, RunLength;
    var start := BucketStart(s[0].openMs, step);
    RunIsOneBucket(s, step);
    forall c | c in s[n..]
      ensures BucketStart(c.openMs, step) > start
    {
      BucketMonotone(s[0].openMs, s[n].openMs, step);
      BucketMonotone(s[n].openMs, c.openMs, step);
    }
    assert s == s[..n] + s[n..];
    FilterConcat(s[..n], s[n..], InBucket(start, step));
    FilterAll(s[..n], InBucket(start, step));
    FilterNone(s[n..], InBucket(start, step));
  }

  lemma GroupLater(run: seq<Candle>, rest: seq<Candle>, o: Candle, start: int, target: Interval)
    requires GroupAt(rest, o, target)
    requires forall c :: c in run ==> BucketStart(c.openMs, IntervalMs(target)) == start
    requires forall c :: c in rest ==> BucketStart(c.openMs, IntervalMs(target)) > start
    ensures o.openMs > start && GroupAt(run + rest, o, target)
  {
    hide BucketStart, IntervalSeconds, Summary, SortBy;
    var p := InBucket(o.openMs, IntervalMs(target));
    var members := Filter(rest, p);
    FilterMembers(rest, p);
    EmptySorted();
    assert members[0] in members;
    FilterConcat(run, rest, p);
    FilterNone(run, p);
    assert [] + members == members;
  }

  lemma {:induction false} BucketsCover(s: seq<Candle>, target: Interval, c: Candle)
    requires c in s
    ensures HasBucket(Buckets(s, target), BucketStart(c.openMs, IntervalMs(target)))
    decreases |s|
  {
    hide BucketStart, IntervalSeconds, StatsOf, RunLength;
    var n := RunLength(s, IntervalMs(target));
    var rest := s[n..];
    var all := Buckets(s, target);
    assert s == s[..n] + rest;
    if c in rest {
      BucketsCover(rest, target, c);
      var k :| 0 <= k < |Buckets(rest, target)| &&
               Buckets(rest, target)[k].openMs == BucketStart(c.openMs, IntervalMs(target));
      assert all[k + 1].openMs == BucketStart(c.openMs, IntervalMs(target));
    } else {
      RunIsOneBucket(s, IntervalMs(target));
      assert c in s[..n] && all[0].openMs == BucketStart(s[0].openMs, IntervalMs(target));
    }
  }

  lemma {:induction false} BucketsGroupAt(s: seq<Candle>, target: Interval)
    requires SortedBy(s, OpenMs)
    ensures Increasing(Buckets(s, target))
    ensures forall o :: o in Buckets(s, target) ==> GroupAt(s, o, target)
    decreases |s|
  {
    hide BucketStart, IntervalSeconds, Summary, RunLength, SortBy, GroupAt, Buckets;
    EmptyBuckets(target);
    if s != [] {
      var step := IntervalMs(target);
      var n := RunLength(s, step);
      var run, rest := s[..n], s[n..];
      BucketsUnfold(s, target);
      BucketsGroupAt(rest, target);
      FirstRunIsABucket(s, n, step);
      FirstGroup(s, n, target);
      var out := Buckets(rest, target);
      forall o | o in out
        ensures o.openMs > BucketStart(s[0].openMs, step) && GroupAt(s, o, target)
      {
        GroupLater(run, rest, o, BucketStart(s[0].openMs, step), target);
      }
      IncreasingCons(Summary(run, target), out);
    }
  }

  lemma IncreasingCons(o: Candle, out: seq<Candle>)
    requires Increasing(out) && forall x :: x in out ==> o.openMs < x.openMs
    ensures Increasing([o] + out)
  {
  }

  lemma BucketsGroup(s: seq<Candle>, target: Interval)
    requires SortedBy(s, OpenMs)
    ensures GroupsBy(s, Buckets(s, target), target)
  {
    hide BucketStart, IntervalSeconds, GroupAt, HasBucket, Buckets, Increasing;
    BucketsGroupAt(s, target);
    forall c | c in s
      ensures HasBucket(Buckets(s, target), BucketStart(c.openMs, IntervalMs(target)))
    {
      BucketsCover(s, target, c);
    }
  }

  lemma FirstGroup(s: seq<Candle>, n: nat, target: Interval)
    requires s != [] && SortedBy(s, OpenMs) && n == RunLength(s, IntervalMs(target))
    ensures Summary(s[..n], target).openMs == BucketStart(s[0].openMs, IntervalMs(target))
    ensures GroupAt(s, Summary(s[..n], target), target)
  {
    hide BucketStart, IntervalSeconds, StatsOf, RunLength, SortBy;
    var start := BucketStart(s[0].openMs, IntervalMs(target));
    FirstRunIsABucket(s, n, IntervalMs(target));
    MembersSorted(s, start, IntervalMs(target));
  }

  /** Grouping a sorted copy is grouping the original. */
  lemma GroupUnsorted(candles: seq<Candle>, o: Candle, target: Interval)
    requires GroupAt(SortBy(candles, OpenMs), o, target)
    ensures GroupAt(candles, o, target)
  {
    hide BucketStart, IntervalSeconds, Summary, SortBy, Filter;
    var p := InBucket(o.openMs, IntervalMs(target));
    SortSorts(candles, OpenMs);
    FilterSort(candles, OpenMs, p);
    MembersSorted(SortBy(candles, OpenMs), o.openMs, IntervalMs(target));
  }

  /** For candles in any order, the derived candles are the group-by of the input. */
  lemma DerivedGroupsBy(candles: seq<Candle>, target: Interval)
    requires candles != [] && Derivable(SortBy(candles, OpenMs)[0].interval, target)
    ensures GroupsBy(candles, Derived(candles, target), target)
  {
    hide BucketStart, IntervalSeconds, Summary, SortBy, Buckets, GroupAt, HasBucket;
    SortSorts(candles, OpenMs);
    SortMembers(candles, OpenMs);
    BucketsGroup(SortBy(candles, OpenMs), target);
    var out := Derived(candles, target);
    forall k | 0 <= k < |out|
      ensures GroupAt(candles, out[k], target)
    {
      GroupUnsorted(candles, out[k], target);
    }
  }

  // ----- conservation and composition

  lemma {:induction false} SumVolumeConcat(a: seq<Candle>, b: seq<Candle>)
    ensures SumVolume(a + b) == SumVolume(a) + SumVolume(b)
  {
    if b == [] {
      assert a + b == a;
    } else {
      SumVolumeConcat(a, b[..|b| - 1]);
      assert (a + b)[..|a + b| - 1] == a + b[..|b| - 1];
    }
  }

  lemma {:induction false} VolumeConserved(s: seq<Candle>, target: Interval)
    ensures SumVolume(Buckets(s, target)) == SumVolume(s)
    decreases |s|
  {
    hide BucketStart, IntervalSeconds, StatsOf, RunLength;
    if s != [] {
      var n := RunLength(s, IntervalMs(target));
      VolumeConserved(s[n..], target);
      assert s == s[..n] + s[n..];
      SumVolumeConcat(s[..n], s[n..]);
      SumVolumeConcat([Summary(s[..n], target)], Buckets(s[n..], target));
      StatsSummarise(s[..n]);
      assert [Summary(s[..n], target)][..0] == [];
    }
  }

  lemma {:induction false} SumVolumeInsert(s: seq<Candle>, c: Candle)
    ensures SumVolume(Insert(s, c, OpenMs)) == SumVolume(s) + c.volume
  {
    if s == [] || s[|s| - 1].openMs <= c.openMs {
      assert (s + [c])[..|s|] == s;
    } else {
      var t := Insert(s[..|s| - 1], c, OpenMs);
      SumVolumeInsert(s[..|s| - 1], c);
      assert (t + [s[|s| - 1]])[..|t|] == t;
    }
  }

  lemma {:induction false} SumVolumeSort(s: seq<Candle>)
    ensures SumVolume(SortBy(s, OpenMs)) == SumVolume(s)
  {
    if s != [] {
      SumVolumeSort(s[..|s| - 1]);
      SumVolumeInsert(SortBy(s[..|s| - 1], OpenMs), s[|s| - 1]);
    }
  }

  /** No volume is lost or made up by deriving. */
  lemma DerivedVolume(candles: seq<Candle>, target: Interval)
    requires candles != [] && Derivable(SortBy(candles, OpenMs)[0].interval, target)
    ensures SumVolume(Derived(candles, target)) == SumVolume(candles)
  {
    hide BucketStart, IntervalSeconds, Buckets, SortBy;
    VolumeConserved(SortBy(candles, OpenMs), target);
    SumVolumeSort(candles);
  }

  lemma JoinAssociates(x: Stats, y: Stats, z: Stats)
    ensures Join(Join(x, y), z) == Join(x, Join(y, z))
  {
  }

  lemma {:induction false} StatsConcat(a: seq<Candle>, b: seq<Candle>)
    requires a != [] && b != []
    ensures StatsOf(a + b) == Join(StatsOf(a), StatsOf(b))
  {
    hide Join;
    var n := |b| - 1;
    var c := b[n];
    assert (a + b)[..|a + b| - 1] == a + b[..n];
    if n == 0 {
      assert a + b[..n] == a;
    } else {
      StatsConcat(a, b[..n]);
      JoinAssociates(StatsOf(a), StatsOf(b[..n]), Stats(c.open, c.high, c.low, c.close, c.volume, c.isClosed));
    }
  }

  lemma StatsOfOne(c: Candle)
    ensures StatsOf([c]) == Stats(c.open, c.high, c.low, c.close, c.volume, c.isClosed)
  {
  }

  /** Summarising the summaries of the parts is summarising the whole. */
  lemma {:induction false} StatsOfBuckets(s: seq<Candle>, middle: Interval)
    requires s != []
    ensures Buckets(s, middle) != [] && StatsOf(Buckets(s, middle)) == StatsOf(s)
    ensures Buckets(s, middle)[0].openMs == BucketStart(s[0].openMs, IntervalMs(middle))
    decreases |s|
  {
    hide BucketStart, IntervalSeconds, RunLength, StatsOf;
    var n := RunLength(s, IntervalMs(middle));
    var head := Summary(s[..n], middle);
    StatsOfOne(head);
    if n < |s| {
      StatsOfBuckets(s[n..], middle);
      StatsConcat(s[..n], s[n..]);
      StatsConcat([head], Buckets(s[n..], middle));
      assert s == s[..n] + s[n..];
    } else {
      assert s[..n] == s && s[n..] == [];
      assert [head] + [] == [head];
    }
  }

  ghost predicate OpensWithin(o: Candle, s: seq<Candle>, middle: Interval) {
    exists c :: c in s && o.openMs == BucketStart(c.openMs, IntervalMs(middle))
  }

  lemma {:induction false} BucketOpens(s: seq<Candle>, middle: Interval)
    ensures forall o :: o in Buckets(s, middle) ==> OpensWithin(o, s, middle)
    decreases |s|
  {
    hide BucketStart, IntervalSeconds, RunLength, StatsOf;
    if s != [] {
      var n := RunLength(s, IntervalMs(middle));
      var head := Summary(s[..n], middle);
      BucketOpens(s[n..], middle);
      assert s[0] in s && head.openMs == BucketStart(s[0].openMs, IntervalMs(middle));
      forall o | o in Buckets(s, middle)
        ensures OpensWithin(o, s, middle)
      {
        if o != head {
          assert o in Buckets(s[n..], middle);
          var c :| c in s[n..] && o.openMs == BucketStart(c.openMs, IntervalMs(middle));
          assert c in s;
        }
      }
    }
  }

  predicate Divides(small: Interval, big: Interval) {
    IntervalMs(big) % IntervalMs(small) == 0
  }

  lemma BucketOfBucket(t: int, middle: Interval, target: Interval)
    requires Divides(middle, target)
    ensures BucketStart(BucketStart(t, IntervalMs(middle)), IntervalMs(target)) == BucketStart(t, IntervalMs(target))
  {
    var d, b := IntervalMs(middle), IntervalMs(target);
    var k := b / d;
    assert b == k * d;
    FloorOfFloor(t, d, k);
  }

  lemma {:induction false} BucketsCompose(s: seq<Candle>, middle: Interval, target: Interval)
    requires Divides(middle, target)
    ensures Buckets(Buckets(s, middle), target) == Buckets(s, target)
    decreases |s|
  {
    hide BucketStart, IntervalSeconds, RunLength, StatsOf;
    if s != [] {
      var step := IntervalMs(target);
      var n := RunLength(s, step);
      var run, rest := s[..n], s[n..];
      assert s == run + rest;
      RunIsOneBucket(s, step);
      CoarseBreakIsFine(run, rest, middle, target);
      BucketsSplit(run, rest, middle);
      var a, b := Buckets(run, middle), Buckets(rest, middle);
      StatsOfBuckets(run, middle);
      BucketOpens(run, middle);
      forall k | 0 <= k < |a|
        ensures BucketStart(a[k].openMs, step) == BucketStart(s[0].openMs, step)
      {
        assert OpensWithin(a[k], run, middle);
        var c :| c in run && a[k].openMs == BucketStart(c.openMs, IntervalMs(middle));
        BucketOfBucket(c.openMs, middle, target);
      }
      if rest != [] {
        StatsOfBuckets(rest, middle);
        BucketOfBucket(rest[0].openMs, middle, target);
      }
      BucketsHead(a, b, target);
      BucketOfBucket(run[0].openMs, middle, target);
      BucketsCompose(rest, middle, target);
    }
  }

  lemma CoarseBreakIsFine(a: seq<Candle>, b: seq<Candle>, middle: Interval, target: Interval)
    requires Divides(middle, target) && Breaks(a, b, IntervalMs(target))
    ensures Breaks(a, b, IntervalMs(middle))
  {
    hide BucketStart, IntervalSeconds;
    if a != [] && b != [] {
      BucketOfBucket(a[|a| - 1].openMs, middle, target);
      BucketOfBucket(b[0].openMs, middle, target);
    }
  }

  /** Deriving in two steps, through any interval between that divides the target, gives the same candles as
      deriving directly, from candles in any order and with any gaps. */
  lemma DerivingComposes(candles: seq<Candle>, middle: Interval, target: Interval)
    requires candles != [] && Derivable(SortBy(candles, OpenMs)[0].interval, middle)
    requires Derivable(middle, target)
    ensures Derivable(SortBy(candles, OpenMs)[0].interval, target)
    ensures Derived(Derived(candles, middle), target) == Derived(candles, target)
  {
    hide BucketStart, IntervalSeconds, Buckets, Summary, SortBy;
    var sorted := SortBy(candles, OpenMs);
    SortSorts(candles, OpenMs);
    SortedBuckets(sorted, middle);
    var between := Buckets(sorted, middle);
    SortedIsFixed(between, OpenMs);
    BucketsCompose(sorted, middle, target);
    DerivableTwice(sorted[0].interval, middle, target);
  }

  lemma SortedBuckets(s: seq<Candle>, middle: Interval)
    requires SortedBy(s, OpenMs) && s != []
    ensures SortedBy(Buckets(s, middle), OpenMs)
    ensures Buckets(s, middle) != [] && Buckets(s, middle)[0].interval == middle
  {
    hide BucketStart, IntervalSeconds, GroupAt, RunLength, SortBy;
    BucketsGroup(s, middle);
    var out := Buckets(s, middle);
    assert Increasing(out);
  }

  lemma DerivableTwice(source: Interval, middle: Interval, target: Interval)
    requires Derivable(source, middle) && Derivable(middle, target)
    ensures Derivable(source, target) && Divides(middle, target)
  {
    hide IntervalSeconds;
    DividesThrough(IntervalMs(source), IntervalMs(middle), IntervalMs(target));
  }

  // ----- a derived candle in plain terms

  lemma BucketCovers(t: int, step: int, start: int)
    requires step > 0
    ensures BucketStart(t, step) <= t < BucketStart(t, step) + step && BucketStart(t, step) % step == 0
    ensures start % step == 0 && start <= t < start + step ==> BucketStart(t, step) == start
  {
    MultipleOf(t / step, step);
    if start % step == 0 && start <= t < start + step {
      assert t == start / step * step + (t - start);
      QuotientUnique(t, step, start / step, t - start);
    }
  }

  function OpensIn(start: int, end: int): Candle -> bool { (c: Candle) => start <= c.openMs < end }

  lemma {:induction false} InBucketIsRange(s: seq<Candle>, start: int, step: int)
    requires step > 0 && start % step == 0
    ensures Filter(s, InBucket(start, step)) == Filter(s, OpensIn(start, start + step))
  {
    hide BucketStart;
    if s != [] {
      InBucketIsRange(s[..|s| - 1], start, step);
      BucketCovers(s[|s| - 1].openMs, step, start);
    }
  }

  /** The candles of the input that open within the derived candle, in opening order. */
  function PartsOf(candles: seq<Candle>, o: Candle): seq<Candle> {
    SortBy(Filter(candles, OpensIn(o.openMs, o.openMs + IntervalMs(o.interval))), OpenMs)
  }

  lemma DerivedSummarises(candles: seq<Candle>, target: Interval, o: Candle)
    requires candles != [] && Derivable(SortBy(candles, OpenMs)[0].interval, target)
    requires o in Derived(candles, target)
    ensures o.interval == target && o.granularity == IntervalSeconds(target) && o.openMs % IntervalMs(target) == 0
    ensures PartsOf(candles, o) != []
    ensures Summarises(Stats(o.open, o.high, o.low, o.close, o.volume, o.isClosed), PartsOf(candles, o))
  {
    hide BucketStart, IntervalSeconds, SortBy, Filter, StatsOf, Derived, Derivable, Summarises;
    DerivedGroupsBy(candles, target);
    var step := IntervalMs(target);
    var k :| 0 <= k < |Derived(candles, target)| && Derived(candles, target)[k] == o;
    var members := SortBy(Filter(candles, InBucket(o.openMs, step)), OpenMs);
    assert GroupAt(candles, o, target);
    BucketCovers(members[0].openMs, step, 0);
    InBucketIsRange(candles, o.openMs, step);
    StatsSummarise(members);
  }

  lemma CandleIsCovered(candles: seq<Candle>, target: Interval, c: Candle)
    requires candles != [] && Derivable(SortBy(candles, OpenMs)[0].interval, target)
    requires c in candles
    ensures exists o :: o in Derived(candles, target) && o.openMs <= c.openMs < o.openMs + IntervalMs(target)
  {
    hide BucketStart, IntervalSeconds, SortBy, Filter, StatsOf, Derived, Derivable;
    DerivedGroupsBy(candles, target);
    var out, step := Derived(candles, target), IntervalMs(target);
    BucketCovers(c.openMs, step, 0);
    var k :| 0 <= k < |out| && out[k].openMs == BucketStart(c.openMs, step);
    assert out[k] in out;
  }

  /** For candles in any order, every derived candle opens on a multiple of the target interval, and has the first open,
      the highest high, the lowest low, the last close and the total volume of exactly the input candles that open
      within it; and every input candle opens within a derived one. */
  lemma DerivedReads(candles: seq<Candle>, target: Interval)
    requires candles != [] && Derivable(SortBy(candles, OpenMs)[0].interval, target)
    ensures forall o :: o in Derived(candles, target) ==>
              && o.interval == target && o.granularity == IntervalSeconds(target) && o.openMs % IntervalMs(target) == 0
              && PartsOf(candles, o) != []
              && Summarises(Stats(o.open, o.high, o.low, o.close, o.volume, o.isClosed), PartsOf(candles, o))
    ensures forall c :: c in candles ==>
              exists o :: o in Derived(candles, target) && o.openMs <= c.openMs < o.openMs + IntervalMs(target)
  {
    hide SortBy, Filter, Derived, Derivable, Summarises;
    forall o | o in Derived(candles, target)
      ensures o.interval == target && o.granularity == IntervalSeconds(target) && o.openMs % IntervalMs(target) == 0
      ensures PartsOf(candles, o) != []
      ensures Summarises(Stats(o.open, o.high, o.low, o.close, o.volume, o.isClosed), PartsOf(candles, o))
    {
      DerivedSummarises(candles, target, o);
    }
    forall c | c in candles
      ensures exists o :: o in Derived(candles, target) && o.openMs <= c.openMs < o.openMs + IntervalMs(target)
    {
      CandleIsCovered(candles, target, c);
    }
  }

  /** Nothing derives from itself, and nothing from what derives from it. */
  lemma DerivableOrder(a: Interval, b: Interval)
    ensures !Derivable(a, a) && (Derivable(a, b) ==> !Derivable(b, a))
  {
    hide IntervalSeconds;
  }

  /** What derives: everything longer from one-minute candles, a month from everything that divides thirty days, and
      nothing from a length that does not divide it. */
  lemma DerivableTable(i: Interval)
    ensures Derivable(M1, i) <==> i != M1
    ensures Derivable(i, Month1) <==> i != Month1 && i != W1
    ensures Derivable(i, M15) <==> i == M1 || i == M5
  {
  }
}
