/** Paging against a server that answers with the first rows from the cursor on: the pages together are one
    big query. */
module HistoryLaws {
  import opened Candles
  import opened History
  import opened Multiples
  import opened Options
  import opened Rounding
  import opened Sorting

  // ----- any server

  ghost predicate DistinctOpens(rows: seq<Row>) {
    forall i, j :: 0 <= i < j < |rows| ==> rows[i].openMs != rows[j].openMs
  }

  ghost predicate Ascending(rows: seq<Row>) {
    forall i, j :: 0 <= i < j < |rows| ==> rows[i].openMs < rows[j].openMs
  }

  lemma {:induction false} PutKeeps(m: seq<Row>, r: Row)
    requires DistinctOpens(m)
    ensures DistinctOpens(Put(m, r))
    ensures forall x :: x in Put(m, r) ==> x in m || x == r
    ensures forall x :: x in Put(m, r) ==> x.openMs == r.openMs || (exists y :: y in m && y.openMs == x.openMs)
  {
    if m != [] && m[0].openMs != r.openMs {
      assert DistinctOpens(m[1..]);
      PutKeeps(m[1..], r);
      var t := Put(m[1..], r);
      forall j | 0 <= j < |t|
        ensures t[j].openMs != m[0].openMs
      {
        assert t[j] in t;
      }
      forall x | x in [m[0]] + t
        ensures x in m || x == r
        ensures x.openMs == r.openMs || (exists y :: y in m && y.openMs == x.openMs)
      {
        if x in t && x != r {
          assert x in m[1..];
        }
      }
    }
  }

  lemma {:induction false} PutAllKeeps(rows: seq<Row>)
    ensures DistinctOpens(PutAll([], rows))
    ensures forall x :: x in PutAll([], rows) ==> x in rows
  {
    if rows != [] {
      PutAllKeeps(rows[..|rows| - 1]);
      PutKeeps(PutAll([], rows[..|rows| - 1]), rows[|rows| - 1]);
    }
  }

  lemma {:induction false} WalkRowsClosed(fetch: Fetch, page: nat, maxPages: nat, cursor: int, end: int, step: int,
                                          requestedAt: int)
    requires page <= maxPages
    ensures forall r :: r in Walk(fetch, page, maxPages, cursor, end, step, requestedAt).rows ==>
              requestedAt > r.closeMs
    decreases maxPages - page
  {
    if page < maxPages && cursor <= end && fetch(page, cursor).Rows? {
      var closed := Filter(fetch(page, cursor).rows, ClosedAt(requestedAt));
      FilterMembers(fetch(page, cursor).rows, ClosedAt(requestedAt));
      if closed != [] && LastOpen(closed) + step > cursor {
        WalkRowsClosed(fetch, page + 1, maxPages, LastOpen(closed) + step, end, step, requestedAt);
      }
    }
  }

  lemma {:induction false} DistinctFilter(s: seq<Row>, p: Row -> bool)
    requires DistinctOpens(s)
    ensures DistinctOpens(Filter(s, p))
  {
    if s != [] {
      DistinctFilter(s[..|s| - 1], p);
      FilterMembers(s[..|s| - 1], p);
      var before := Filter(s[..|s| - 1], p);
      forall i | 0 <= i < |before|
        ensures before[i].openMs != s[|s| - 1].openMs
      {
        assert before[i] in before;
      }
    }
  }

  lemma SortDistinct(s: seq<Row>)
    requires DistinctOpens(s)
    ensures Ascending(SortBy(s, RowOpen))
  {
    hide SortBy;
    assert DistinctKeys(s, RowOpen);
    SortStrict(s, RowOpen);
    var sorted := SortBy(s, RowOpen);
    assert forall i, j :: 0 <= i < j < |sorted| ==> RowOpen(sorted[i]) < RowOpen(sorted[j]);
  }

  /** Whatever the server answers, the result is strictly ascending, inside the range and closed, and every
      candle came from a page. */
  lemma ResultIsClean(fetch: Fetch, start: int, end: int, step: int, requestedAt: int, budget: nat)
    ensures var w := Walk(fetch, 0, budget, start, end, step, requestedAt);
            var candles := Conclude(w, start, end).candles;
            && Ascending(candles)
            && forall r :: r in candles ==> start <= r.openMs <= end && requestedAt > r.closeMs && r in w.rows
  {
    hide Walk, PutAll, SortBy, Filter;
    var w := Walk(fetch, 0, budget, start, end, step, requestedAt);
    WalkRowsClosed(fetch, 0, budget, start, end, step, requestedAt);
    PutAllKeeps(w.rows);
    var kept := Filter(PutAll([], w.rows), OpenIn(start, end));
    FilterMembers(PutAll([], w.rows), OpenIn(start, end));
    DistinctFilter(PutAll([], w.rows), OpenIn(start, end));
    SortDistinct(kept);
    SortMembers(kept, RowOpen);
  }

  // ----- a server over one series

  /** Rows in opening order; a later row does not close earlier. */
  ghost predicate Series(data: seq<Row>) {
    Ascending(data) && forall i, j :: 0 <= i < j < |data| ==> data[i].closeMs <= data[j].closeMs
  }

  /** Answers with the first `limit` rows opening between the cursor and the end; pages in `fails` fail. */
  function Server(data: seq<Row>, end: int, limit: nat, fails: nat -> bool): Fetch {
    (page: nat, cursor: int) => if fails(page) then FailedPage else Rows(Take(Filter(data, OpenIn(cursor, end)), limit))
  }

  /** The one big query: every closed row that opens in the range. */
  function Wanted(data: seq<Row>, from: int, to: int, requestedAt: int): seq<Row> {
    Filter(Filter(data, OpenIn(from, to)), ClosedAt(requestedAt))
  }

  ghost predicate Spaced(rows: seq<Row>, step: int) {
    forall i :: 0 < i < |rows| ==> rows[i].openMs - rows[i - 1].openMs >= step
  }

  lemma SeriesAppend(s: seq<Row>, x: Row)
    requires Series(s) && forall y :: y in s ==> y.openMs < x.openMs && y.closeMs <= x.closeMs
    ensures Series(s + [x])
  {
    forall i | 0 <= i < |s|
      ensures s[i].openMs < x.openMs && s[i].closeMs <= x.closeMs
    {
      assert s[i] in s;
    }
  }

  lemma SeriesInit(s: seq<Row>)
    requires Series(s) && s != []
    ensures Series(s[..|s| - 1])
    ensures forall y :: y in s[..|s| - 1] ==> y.openMs < s[|s| - 1].openMs && y.closeMs <= s[|s| - 1].closeMs
  {
  }

  lemma {:induction false} FilterSeries(data: seq<Row>, p: Row -> bool)
    requires Series(data)
    ensures Series(Filter(data, p))
  {
    hide Series;
    if data == [] {
      SeriesEmpty();
    } else {
      var m := |data| - 1;
      SeriesInit(data);
      FilterSeries(data[..m], p);
      FilterMembers(data[..m], p);
      if p(data[m]) {
        SeriesAppend(Filter(data[..m], p), data[m]);
      }
    }
  }

  lemma SeriesEmpty()
    ensures Series([])
  {
  }

  function ClosedCount(d: seq<Row>, requestedAt: int): (c: nat)
    ensures c <= |d|
  {
    if d == [] then 0
    else if requestedAt > d[|d| - 1].closeMs then |d|
    else ClosedCount(d[..|d| - 1], requestedAt)
  }

  /** The closed rows of a series are a prefix of it, and so are those of any prefix. */
  lemma {:induction false} ClosedArePrefix(d: seq<Row>, requestedAt: int)
    requires Series(d)
    ensures Filter(d, ClosedAt(requestedAt)) == d[..ClosedCount(d, requestedAt)]
  {
    if d != [] {
      var m := |d| - 1;
      if requestedAt > d[m].closeMs {
        FilterAll(d, ClosedAt(requestedAt));
      } else {
        ClosedArePrefix(d[..m], requestedAt);
      }
    }
  }

  lemma {:induction false} ClosedOfPrefix(d: seq<Row>, k: nat, requestedAt: int)
    requires Series(d) && k <= |d|
    ensures ClosedCount(d[..k], requestedAt) == MinInt(k, ClosedCount(d, requestedAt))
    decreases |d|
  {
    if k < |d| {
      var m := |d| - 1;
      assert d[..m][..k] == d[..k];
      ClosedOfPrefix(d[..m], k, requestedAt);
      if requestedAt > d[m].closeMs && k > 0 {
        assert d[..k][k - 1].closeMs <= d[m].closeMs;
      }
    } else {
      assert d[..k] == d;
    }
  }

  lemma SeriesPrefix(d: seq<Row>, k: nat)
    requires Series(d) && k <= |d|
    ensures Series(d[..k])
  {
  }

  lemma ServedRows(data: seq<Row>, cursor: int, end: int, limit: nat, requestedAt: int)
    requires Series(data)
    ensures Filter(Take(Filter(data, OpenIn(cursor, end)), limit), ClosedAt(requestedAt))
         == Take(Wanted(data, cursor, end, requestedAt), limit)
  {
    hide Filter;
    var d := Filter(data, OpenIn(cursor, end));
    FilterSeries(data, OpenIn(cursor, end));
    var k := if |d| <= limit then |d| else limit;
    assert Take(d, limit) == d[..k];
    SeriesPrefix(d, k);
    ClosedArePrefix(d, requestedAt);
    ClosedArePrefix(d[..k], requestedAt);
    ClosedOfPrefix(d, k, requestedAt);
  }

  lemma WantedFacts(data: seq<Row>, from: int, to: int, requestedAt: int)
    requires Series(data)
    ensures Series(Wanted(data, from, to, requestedAt))
    ensures forall r :: r in Wanted(data, from, to, requestedAt) ==> from <= r.openMs <= to
    ensures from > to ==> Wanted(data, from, to, requestedAt) == []
  {
    hide Filter;
    FilterSeries(data, OpenIn(from, to));
    FilterSeries(Filter(data, OpenIn(from, to)), ClosedAt(requestedAt));
    FilterMembers(data, OpenIn(from, to));
    FilterMembers(Filter(data, OpenIn(from, to)), ClosedAt(requestedAt));
    if from > to {
      FilterNone(data, OpenIn(from, to));
      EmptyFilter(ClosedAt(requestedAt));
    }
  }

  lemma EmptyFilter(p: Row -> bool)
    ensures Filter([], p) == []
  {
  }

  lemma WantedAppend(s: seq<Row>, x: Row, from: int, to: int, requestedAt: int)
    ensures Wanted(s + [x], from, to, requestedAt)
         == if from <= x.openMs <= to && requestedAt > x.closeMs then Wanted(s, from, to, requestedAt) + [x]
            else Wanted(s, from, to, requestedAt)
  {
    hide Filter;
    FilterAppend(s, x, OpenIn(from, to));
    FilterAppend(Filter(s, OpenIn(from, to)), x, ClosedAt(requestedAt));
  }

  lemma {:induction false} WantedLater(data: seq<Row>, from: int, later: int, to: int, requestedAt: int)
    requires from <= later
    ensures Wanted(data, later, to, requestedAt) == Filter(Wanted(data, from, to, requestedAt), From(later))
  {
    if data != [] {
      hide Filter, Wanted;
      var s, x := data[..|data| - 1], data[|data| - 1];
      assert data == s + [x];
      WantedLater(s, from, later, to, requestedAt);
      WantedAppend(s, x, from, to, requestedAt);
      WantedAppend(s, x, later, to, requestedAt);
      FilterAppend(Wanted(s, from, to, requestedAt), x, From(later));
    }
  }

  lemma FilterAppend(s: seq<Row>, x: Row, p: Row -> bool)
    ensures Filter(s + [x], p) == if p(x) then Filter(s, p) + [x] else Filter(s, p)
  {
    assert (s + [x])[..|s|] == s;
  }

  lemma SuffixFrom(w: seq<Row>, k: nat, t: int)
    requires k <= |w|
    requires forall i :: 0 <= i < k ==> w[i].openMs < t
    requires forall i :: k <= i < |w| ==> w[i].openMs >= t
    ensures Filter(w, From(t)) == w[k..]
  {
    hide Filter;
    assert w == w[..k] + w[k..];
    FilterConcat(w[..k], w[k..], From(t));
    FilterNone(w[..k], From(t));
    FilterAll(w[k..], From(t));
  }

  lemma {:induction false} LastOpenAscending(rows: seq<Row>)
    requires rows != [] && Ascending(rows)
    ensures LastOpen(rows) == rows[|rows| - 1].openMs
  {
    if |rows| > 1 {
      LastOpenAscending(rows[..|rows| - 1]);
    }
  }

  lemma {:induction false} SpacedApart(w: seq<Row>, i: int, j: int, step: int)
    requires Spaced(w, step) && step > 0 && 0 <= i <= j < |w|
    ensures w[j].openMs - w[i].openMs >= (j - i) * step
    decreases j - i
  {
    if i < j {
      SpacedApart(w, i, j - 1, step);
      assert (j - i) * step == (j - 1 - i) * step + step;
    }
  }

  lemma PageEnds(data: seq<Row>, cursor: int, end: int, limit: nat, step: int, requestedAt: int)
    requires Series(data) && step > 0 && limit >= 1
    requires Wanted(data, cursor, end, requestedAt) != []
    ensures var w := Wanted(data, cursor, end, requestedAt);
            var page := Take(w, limit);
            && page != [] && |page| <= |w| && page == w[..|page|]
            && LastOpen(page) == w[|page| - 1].openMs >= w[0].openMs >= cursor
            && Wanted(data, LastOpen(page) + step, end, requestedAt) == Filter(w, From(LastOpen(page) + step))
  {
    hide Filter, Wanted, LastOpen;
    var w := Wanted(data, cursor, end, requestedAt);
    var page := Take(w, limit);
    WantedFacts(data, cursor, end, requestedAt);
    LastOpenAscending(page);
    assert w[0] in w;
    WantedLater(data, cursor, LastOpen(page) + step, end, requestedAt);
  }

  // ----- page joints

  /** The first row of page `k` opens at least an interval after the last row of the page before it. */
  predicate JointHolds(w: seq<Row>, limit: nat, step: int, k: nat)
    requires limit >= 1
  {
    if k == 0 then true
    else
      TimesMonotone(1, k, limit);
      k * limit < |w| ==> w[k * limit].openMs >= w[k * limit - 1].openMs + step
  }

  ghost predicate JointsHold(w: seq<Row>, limit: nat, step: int)
    requires limit >= 1
  {
    forall k: nat :: JointHolds(w, limit, step, k)
  }

  /** If page `k`, counted from page `page` on, has wanted rows: it is within the budget, does not fail, and its joint
      holds. */
  predicate PageServed(w: seq<Row>, limit: nat, step: int, budget: nat, fails: nat -> bool, page: nat, k: nat)
    requires limit >= 1
  {
    k * limit < |w| ==> page + k < budget && !fails(page + k) && JointHolds(w, limit, step, k)
  }

  ghost predicate AllServed(w: seq<Row>, limit: nat, step: int, budget: nat, fails: nat -> bool, page: nat)
    requires limit >= 1
  {
    forall k: nat :: PageServed(w, limit, step, budget, fails, page, k)
  }

  /** One page in: the rows of the page are the first wanted ones, the cursor moves on, and what it still wants is what
      opens an interval or more after the page's last row: exactly the rest when the joint holds. */
  lemma PageStep(data: seq<Row>, cursor: int, end: int, limit: nat, step: int, requestedAt: int)
    requires Series(data) && step > 0 && limit >= 1
    requires Wanted(data, cursor, end, requestedAt) != []
    ensures var w := Wanted(data, cursor, end, requestedAt);
            var page := Take(w, limit);
            var next := LastOpen(page) + step;
            && page != [] && |page| <= |w| && page == w[..|page|]
            && next > cursor && LastOpen(page) == w[|page| - 1].openMs
            && Wanted(data, next, end, requestedAt) == Filter(w, From(next))
            && (Wanted(data, next, end, requestedAt) == w[|page|..] <==> JointHolds(w, limit, step, 1))
  {
    hide Filter, Wanted, LastOpen, Series;
    var w := Wanted(data, cursor, end, requestedAt);
    PageEnds(data, cursor, end, limit, step, requestedAt);
    WantedFacts(data, cursor, end, requestedAt);
    SeriesAscends(w);
    JointRest(w, limit, step);
  }

  lemma JointRest(w: seq<Row>, limit: nat, step: int)
    requires Ascending(w) && w != [] && step > 0 && limit >= 1
    ensures var k := |Take(w, limit)|;
            Filter(w, From(w[k - 1].openMs + step)) == w[k..] <==> JointHolds(w, limit, step, 1)
  {
    hide Filter;
    var k := |Take(w, limit)|;
    var t := w[k - 1].openMs + step;
    if JointHolds(w, limit, step, 1) {
      SuffixFrom(w, k, t);
    } else {
      assert w[k] == w[k..][0] && w[k] in w[k..];
      FilterMembers(w, From(t));
    }
  }

  lemma SeriesAscends(w: seq<Row>)
    requires Series(w)
    ensures Ascending(w)
  {
  }

  /** One turn of the loop against the server, in terms of the wanted rows. */
  lemma TurnOfTheLoop(data: seq<Row>, limit: nat, fails: nat -> bool, page: nat, budget: nat, cursor: int, end: int,
                      step: int, requestedAt: int)
    requires Series(data) && step > 0 && limit >= 1 && page < budget && cursor <= end && !fails(page)
    ensures var walked := Walk(Server(data, end, limit, fails), page, budget, cursor, end, step, requestedAt);
            var w := Wanted(data, cursor, end, requestedAt);
            if w == [] then walked.rows == [] && walked.failure == None
            else
              var rest := Walk(Server(data, end, limit, fails), page + 1, budget, LastOpen(Take(w, limit)) + step, end,
                               step, requestedAt);
              walked.rows == Take(w, limit) + rest.rows && walked.failure == rest.failure
  {
    hide Filter, Wanted, LastOpen, Series;
    ServedRows(data, cursor, end, limit, requestedAt);
    if Wanted(data, cursor, end, requestedAt) != [] {
      PageStep(data, cursor, end, limit, step, requestedAt);
    }
  }

  lemma JointShifts(w: seq<Row>, limit: nat, step: int, k: nat)
    requires limit >= 1 && limit < |w| && 1 <= k
    ensures JointHolds(w[limit..], limit, step, k) <==> JointHolds(w, limit, step, k + 1)
  {
    assert (k + 1) * limit == k * limit + limit;
    TimesMonotone(1, k, limit);
  }

  lemma JointsShift(w: seq<Row>, limit: nat, step: int)
    requires limit >= 1 && limit < |w| && JointsHold(w, limit, step)
    ensures JointsHold(w[limit..], limit, step)
  {
    hide JointHolds;
    forall k: nat
      ensures JointHolds(w[limit..], limit, step, k)
    {
      if k == 0 {
        FirstJoint(w[limit..], limit, step);
      } else {
        JointShifts(w, limit, step, k);
        assert JointHolds(w, limit, step, k + 1);
      }
    }
  }

  lemma FirstJoint(w: seq<Row>, limit: nat, step: int)
    requires limit >= 1
    ensures JointHolds(w, limit, step, 0)
  {
  }

  lemma ServedShifts(w: seq<Row>, limit: nat, step: int, budget: nat, fails: nat -> bool, page: nat, k: nat)
    requires limit >= 1 && limit < |w| && JointHolds(w, limit, step, 1)
    ensures PageServed(w[limit..], limit, step, budget, fails, page + 1, k)
       <==> PageServed(w, limit, step, budget, fails, page, k + 1)
  {
    hide JointHolds;
    assert (k + 1) * limit == k * limit + limit;
    assert |w[limit..]| == |w| - limit;
    FirstJoint(w[limit..], limit, step);
    if k > 0 {
      JointShifts(w, limit, step, k);
    }
  }

  lemma ServedUnfolds(w: seq<Row>, limit: nat, step: int, budget: nat, fails: nat -> bool, page: nat)
    requires limit >= 1 && limit < |w|
    ensures AllServed(w, limit, step, budget, fails, page) <==>
              && page < budget && !fails(page) && JointHolds(w, limit, step, 1)
              && AllServed(w[limit..], limit, step, budget, fails, page + 1)
  {
    hide PageServed, JointHolds;
    ServedFirst(w, limit, step, budget, fails, page);
    if AllServed(w, limit, step, budget, fails, page) {
      assert PageServed(w, limit, step, budget, fails, page, 0) && PageServed(w, limit, step, budget, fails, page, 1);
      var rest, next := w[limit..], page + 1;
      forall k: nat
        ensures PageServed(rest, limit, step, budget, fails, next, k)
      {
        ServedShifts(w, limit, step, budget, fails, page, k);
        assert PageServed(w, limit, step, budget, fails, page, k + 1);
      }
    } else if page < budget && !fails(page) && JointHolds(w, limit, step, 1) {
      var k: nat :| !PageServed(w, limit, step, budget, fails, page, k);
      ServedShifts(w, limit, step, budget, fails, page, k - 1);
    }
  }

  lemma ServedFirst(w: seq<Row>, limit: nat, step: int, budget: nat, fails: nat -> bool, page: nat)
    requires limit >= 1 && limit < |w|
    ensures PageServed(w, limit, step, budget, fails, page, 0) <==> page < budget && !fails(page)
    ensures PageServed(w, limit, step, budget, fails, page, 1) ==> JointHolds(w, limit, step, 1)
  {
  }

  lemma LastPageServed(w: seq<Row>, limit: nat, step: int, budget: nat, fails: nat -> bool, page: nat)
    requires limit >= 1 && |w| <= limit
    ensures AllServed(w, limit, step, budget, fails, page) <==> w == [] || (page < budget && !fails(page))
  {
    forall k: nat | k > 0
      ensures PageServed(w, limit, step, budget, fails, page, k)
    {
      TimesMonotone(1, k, limit);
    }
    if w != [] && !(page < budget && !fails(page)) {
      assert !PageServed(w, limit, step, budget, fails, page, 0);
    }
  }

  /** What a walk over a server yields comes in strictly ascending order, from the cursor on and up to the end; and the
      walk never stalls. */
  lemma {:induction false} WalkRowsAscend(data: seq<Row>, limit: nat, fails: nat -> bool, page: nat, budget: nat,
                                          cursor: int, end: int, step: int, requestedAt: int)
    requires Series(data) && step > 0 && limit >= 1 && page <= budget
    ensures var walked := Walk(Server(data, end, limit, fails), page, budget, cursor, end, step, requestedAt);
            && Ascending(walked.rows) && (forall r :: r in walked.rows ==> cursor <= r.openMs <= end)
            && walked.failure in {None, Some(PageFailed)}
    decreases budget - page
  {
    hide Filter, Wanted, LastOpen, Series, Take, Ascending, Walk;
    NothingAscends();
    if page == budget || cursor > end || fails(page) {
      NothingWalked(data, limit, fails, page, budget, cursor, end, step, requestedAt);
    } else {
      TurnOfTheLoop(data, limit, fails, page, budget, cursor, end, step, requestedAt);
      if Wanted(data, cursor, end, requestedAt) != [] {
        PageStep(data, cursor, end, limit, step, requestedAt);
        var next := LastOpen(Take(Wanted(data, cursor, end, requestedAt), limit)) + step;
        WalkRowsAscend(data, limit, fails, page + 1, budget, next, end, step, requestedAt);
        PageThenRest(data, cursor, end, limit, step, requestedAt,
                     Walk(Server(data, end, limit, fails), page + 1, budget, next, end, step, requestedAt).rows);
      }
    }
  }

  lemma PageThenRest(data: seq<Row>, cursor: int, end: int, limit: nat, step: int, requestedAt: int, rest: seq<Row>)
    requires Series(data) && step > 0 && limit >= 1 && Wanted(data, cursor, end, requestedAt) != [] && Ascending(rest)
    requires var next := LastOpen(Take(Wanted(data, cursor, end, requestedAt), limit)) + step;
             forall r :: r in rest ==> next <= r.openMs <= end
    ensures var rows := Take(Wanted(data, cursor, end, requestedAt), limit) + rest;
            Ascending(rows) && forall r :: r in rows ==> cursor <= r.openMs <= end
  {
    hide Filter, Wanted, LastOpen, Series, Take, Ascending;
    var w := Wanted(data, cursor, end, requestedAt);
    var head := Take(w, limit);
    PageStep(data, cursor, end, limit, step, requestedAt);
    WantedFacts(data, cursor, end, requestedAt);
    SeriesAscends(w);
    AscendingJoin(w, |head|, rest, LastOpen(head) + step);
  }

  lemma NothingWalked(data: seq<Row>, limit: nat, fails: nat -> bool, page: nat, budget: nat, cursor: int, end: int,
                      step: int, requestedAt: int)
    requires page <= budget && (page == budget || cursor > end || fails(page))
    ensures var walked := Walk(Server(data, end, limit, fails), page, budget, cursor, end, step, requestedAt);
            walked.rows == [] && walked.failure in {None, Some(PageFailed)}
  {
  }

  lemma NothingAscends()
    ensures Ascending([])
  {
  }

  lemma AscendingJoin(w: seq<Row>, k: nat, rest: seq<Row>, next: int)
    requires Ascending(w) && 0 < k <= |w| && w[k - 1].openMs < next
    requires Ascending(rest) && forall r :: r in rest ==> next <= r.openMs
    ensures Ascending(w[..k] + rest)
    ensures forall r :: r in w[..k] + rest ==> r in w || r in rest
  {
    forall i, j | 0 <= i < k && 0 <= j < |rest|
      ensures w[i].openMs < rest[j].openMs
    {
      assert rest[j] in rest;
    }
  }

  /** When every joint holds, the walk yields a prefix of the wanted rows, whatever pages fail. */
  lemma {:induction false} WalkIsPrefix(data: seq<Row>, limit: nat, fails: nat -> bool, page: nat, budget: nat,
                                        cursor: int, end: int, step: int, requestedAt: int)
    requires Series(data) && step > 0 && limit >= 1 && page <= budget
    requires JointsHold(Wanted(data, cursor, end, requestedAt), limit, step)
    ensures Walk(Server(data, end, limit, fails), page, budget, cursor, end, step, requestedAt).rows
         <= Wanted(data, cursor, end, requestedAt)
    decreases budget - page
  {
    hide Filter, Wanted, LastOpen, Series, JointHolds;
    var w := Wanted(data, cursor, end, requestedAt);
    if page < budget && cursor <= end && !fails(page) {
      hide Walk;
      TurnOfTheLoop(data, limit, fails, page, budget, cursor, end, step, requestedAt);
      if w != [] {
        PageStep(data, cursor, end, limit, step, requestedAt);
        assert JointHolds(w, limit, step, 1);
        RestJoints(w, limit, step);
        WalkIsPrefix(data, limit, fails, page + 1, budget, LastOpen(Take(w, limit)) + step, end, step, requestedAt);
      }
    }
  }

  lemma RestJoints(w: seq<Row>, limit: nat, step: int)
    requires limit >= 1 && w != [] && JointsHold(w, limit, step)
    ensures JointsHold(w[|Take(w, limit)|..], limit, step)
  {
    if |w| > limit {
      JointsShift(w, limit, step);
    } else {
      assert w[|w|..] == [];
    }
  }

  /** Against one series, a walk yields all wanted rows if and only if each page that holds some of them is within the
      budget, does not fail, and begins an interval or more after the last row of the page before it. */
  lemma {:induction false} CompleteExactly(data: seq<Row>, limit: nat, fails: nat -> bool, page: nat, budget: nat,
                                           cursor: int, end: int, step: int, requestedAt: int)
    requires Series(data) && step > 0 && limit >= 1 && page <= budget
    ensures Walk(Server(data, end, limit, fails), page, budget, cursor, end, step, requestedAt).rows
              == Wanted(data, cursor, end, requestedAt)
       <==> AllServed(Wanted(data, cursor, end, requestedAt), limit, step, budget, fails, page)
    decreases budget - page
  {
    hide Filter, Wanted, LastOpen, Series, AllServed, JointHolds;
    var w := Wanted(data, cursor, end, requestedAt);
    WantedFacts(data, cursor, end, requestedAt);
    if |w| <= limit {
      LastPageServed(w, limit, step, budget, fails, page);
    } else {
      ServedUnfolds(w, limit, step, budget, fails, page);
    }
    if page < budget && cursor <= end && !fails(page) {
      hide Walk;
      TurnOfTheLoop(data, limit, fails, page, budget, cursor, end, step, requestedAt);
      if w != [] {
        CompleteStep(data, limit, fails, page, budget, cursor, end, step, requestedAt);
      }
    }
  }

  lemma CompleteStep(data: seq<Row>, limit: nat, fails: nat -> bool, page: nat, budget: nat, cursor: int, end: int,
                     step: int, requestedAt: int)
    requires Series(data) && step > 0 && limit >= 1 && page < budget && cursor <= end && !fails(page)
    requires Wanted(data, cursor, end, requestedAt) != []
    ensures var w := Wanted(data, cursor, end, requestedAt);
            var rest := Walk(Server(data, end, limit, fails), page + 1, budget, LastOpen(Take(w, limit)) + step, end,
                             step, requestedAt).rows;
            Take(w, limit) + rest == w <==> AllServed(w, limit, step, budget, fails, page)
    decreases budget - page, 0
  {
    hide Filter, Wanted, LastOpen, Series, AllServed, JointHolds, Walk;
    var w := Wanted(data, cursor, end, requestedAt);
    var head, next := Take(w, limit), LastOpen(Take(w, limit)) + step;
    var rest := Walk(Server(data, end, limit, fails), page + 1, budget, next, end, step, requestedAt).rows;
    PageStep(data, cursor, end, limit, step, requestedAt);
    CompleteExactly(data, limit, fails, page + 1, budget, next, end, step, requestedAt);
    SamePrefix(w, |head|, rest);
    if |w| <= limit {
      LastPageServed(w, limit, step, budget, fails, page);
      LastPageJoint(w, limit, step);
      LastPageServed([], limit, step, budget, fails, page + 1);
      assert w[|head|..] == [];
    } else {
      ServedUnfolds(w, limit, step, budget, fails, page);
      if !JointHolds(w, limit, step, 1) {
        WalkRowsAscend(data, limit, fails, page + 1, budget, next, end, step, requestedAt);
        BrokenJoint(w, limit, step);
        RestBegins(w, limit, rest, next);
      }
    }
  }

  lemma SamePrefix(w: seq<Row>, k: nat, rest: seq<Row>)
    requires k <= |w|
    ensures w[..k] + rest == w <==> rest == w[k..]
  {
    assert w == w[..k] + w[k..];
    if w[..k] + rest == w {
      assert (w[..k] + rest)[k..] == rest;
    }
  }

  lemma LastPageJoint(w: seq<Row>, limit: nat, step: int)
    requires limit >= 1 && |w| <= limit
    ensures JointHolds(w, limit, step, 1)
  {
  }

  lemma RestBegins(w: seq<Row>, limit: nat, rest: seq<Row>, next: int)
    requires limit < |w| && w[limit].openMs < next && forall r :: r in rest ==> next <= r.openMs
    ensures rest != w[limit..]
  {
    assert w[limit] == w[limit..][0] && w[limit] in w[limit..];
  }

  lemma BrokenJoint(w: seq<Row>, limit: nat, step: int)
    requires limit >= 1 && !JointHolds(w, limit, step, 1)
    ensures |w| > limit && w[limit].openMs < w[limit - 1].openMs + step
  {
  }

  /** How many pages a download needs at most. */
  function PagesNeeded(start: int, end: int, limit: nat, step: int): int
    requires step > 0 && limit >= 1
  {
    TimesMonotone(1, limit, step);
    (end - start) / (limit * step) + 1
  }

  function NeverFails(page: nat): bool { false }

  /** Rows of the range that are an interval apart fit the pages needed, and all their joints hold. */
  lemma PagesSuffice(w: seq<Row>, start: int, end: int, limit: nat, step: int)
    requires Ascending(w) && Spaced(w, step) && step > 0 && limit >= 1
    requires forall r :: r in w ==> start <= r.openMs <= end
    ensures JointsHold(w, limit, step)
    ensures w != [] ==> |w| <= PagesNeeded(start, end, limit, step) * limit
  {
    forall k: nat
      ensures JointHolds(w, limit, step, k)
    {
      if k > 0 {
        TimesMonotone(1, k, limit);
      }
    }
    if w != [] {
      var n := |w| - 1;
      assert w[0] in w && w[n] in w;
      SpacedApart(w, 0, n, step);
      FitsPages(n, end - start, limit, step);
    }
  }

  lemma FitsPages(n: nat, length: int, limit: nat, step: int)
    requires n * step <= length && step > 0 && limit >= 1
    ensures limit * step > 0 && n < (length / (limit * step) + 1) * limit
  {
    TimesMonotone(1, limit, step);
    var q, r := length / (limit * step), length % (limit * step);
    assert length == q * (limit * step) + r;
    assert ((q + 1) * limit) * step == q * (limit * step) + limit * step;
    if n >= (q + 1) * limit {
      TimesMonotone((q + 1) * limit, n, step);
    }
  }

  lemma ServedByBudget(w: seq<Row>, limit: nat, step: int, budget: nat)
    requires limit >= 1 && JointsHold(w, limit, step) && |w| <= budget * limit
    ensures AllServed(w, limit, step, budget, NeverFails, 0)
  {
    hide JointHolds;
    forall k: nat
      ensures PageServed(w, limit, step, budget, NeverFails, 0, k)
    {
      assert JointHolds(w, limit, step, k);
      if k >= budget {
        TimesMonotone(budget, k, limit);
      }
    }
  }

  /** When no page fails, every joint holds and the pages of the budget hold all wanted rows, the walk yields them. */
  lemma WalkIsComplete(data: seq<Row>, limit: nat, budget: nat, start: int, end: int, step: int, requestedAt: int)
    requires Series(data) && step > 0 && limit >= 1
    requires JointsHold(Wanted(data, start, end, requestedAt), limit, step)
    requires |Wanted(data, start, end, requestedAt)| <= budget * limit
    ensures Walk(Server(data, end, limit, NeverFails), 0, budget, start, end, step, requestedAt).rows
         == Wanted(data, start, end, requestedAt)
  {
    hide Wanted, Walk, AllServed, JointsHold, Series;
    ServedByBudget(Wanted(data, start, end, requestedAt), limit, step, budget);
    CompleteExactly(data, limit, NeverFails, 0, budget, start, end, step, requestedAt);
  }

  /** For rows an interval apart, (end - start) / (limit * interval) + 1 pages are enough. */
  lemma SpacedIsComplete(data: seq<Row>, limit: nat, budget: nat, start: int, end: int, step: int, requestedAt: int)
    requires Series(data) && step > 0 && limit >= 1
    requires Spaced(Wanted(data, start, end, requestedAt), step) && budget >= PagesNeeded(start, end, limit, step)
    ensures Walk(Server(data, end, limit, NeverFails), 0, budget, start, end, step, requestedAt).rows
         == Wanted(data, start, end, requestedAt)
  {
    hide Wanted, Walk, JointsHold, Series, PagesNeeded, Spaced;
    var w := Wanted(data, start, end, requestedAt);
    WantedFacts(data, start, end, requestedAt);
    SeriesAscends(w);
    PagesSuffice(w, start, end, limit, step);
    TimesMonotone(PagesNeeded(start, end, limit, step), budget, limit);
    TimesMonotone(0, budget, limit);
    WalkIsComplete(data, limit, budget, start, end, step, requestedAt);
  }

  /** With one row per page, the walk only ever yields rows an interval apart, whatever the series. */
  lemma {:induction false} OneRowPagesAreSpaced(data: seq<Row>, page: nat, budget: nat, cursor: int, end: int,
                                                step: int, requestedAt: int)
    requires Series(data) && step > 0 && page <= budget
    ensures var rows := Walk(Server(data, end, 1, NeverFails), page, budget, cursor, end, step, requestedAt).rows;
            Spaced(rows, step) && (rows != [] ==> rows[0].openMs >= cursor)
    decreases budget - page
  {
    hide Filter, Wanted, LastOpen, Series;
    if page < budget && cursor <= end {
      hide Walk;
      TurnOfTheLoop(data, 1, NeverFails, page, budget, cursor, end, step, requestedAt);
      var w := Wanted(data, cursor, end, requestedAt);
      if w != [] {
        PageStep(data, cursor, end, 1, step, requestedAt);
        WantedFacts(data, cursor, end, requestedAt);
        assert w[0] in w;
        OneRowPagesAreSpaced(data, page + 1, budget, LastOpen(Take(w, 1)) + step, end, step, requestedAt);
      }
    }
  }

  ghost predicate CompleteFor(data: seq<Row>, start: int, end: int, step: int, requestedAt: int, limit: nat)
    requires step > 0 && limit >= 1
  {
    forall budget: nat :: budget >= PagesNeeded(start, end, limit, step) ==>
      Walk(Server(data, end, limit, NeverFails), 0, budget, start, end, step, requestedAt).rows
        == Wanted(data, start, end, requestedAt)
  }

  lemma OneRowJoints(w: seq<Row>, step: int)
    requires JointsHold(w, 1, step)
    ensures Spaced(w, step)
  {
    forall i | 0 < i < |w|
      ensures w[i].openMs - w[i - 1].openMs >= step
    {
      assert JointHolds(w, 1, step, i);
      assert i * 1 == i;
    }
  }

  lemma ServedJoints(w: seq<Row>, limit: nat, step: int, budget: nat, fails: nat -> bool)
    requires limit >= 1 && AllServed(w, limit, step, budget, fails, 0)
    ensures JointsHold(w, limit, step)
  {
    forall k: nat
      ensures JointHolds(w, limit, step, k)
    {
      assert PageServed(w, limit, step, budget, fails, 0, k);
    }
  }

  /** Over all page limits together, paging is complete if and only if the wanted rows are an interval apart. */
  lemma CompleteExactlyWhenSpaced(data: seq<Row>, start: int, end: int, step: int, requestedAt: int)
    requires Series(data) && step > 0
    ensures (forall limit: nat :: limit >= 1 ==> CompleteFor(data, start, end, step, requestedAt, limit))
       <==> Spaced(Wanted(data, start, end, requestedAt), step)
  {
    hide Filter, Wanted, Walk, PagesNeeded, Series, Spaced, JointsHold, AllServed;
    var w := Wanted(data, start, end, requestedAt);
    if Spaced(w, step) {
      forall limit: nat | limit >= 1
        ensures CompleteFor(data, start, end, step, requestedAt, limit)
      {
        forall budget: nat | budget >= PagesNeeded(start, end, limit, step)
          ensures Walk(Server(data, end, limit, NeverFails), 0, budget, start, end, step, requestedAt).rows == w
        {
          SpacedIsComplete(data, limit, budget, start, end, step, requestedAt);
        }
      }
    } else if CompleteFor(data, start, end, step, requestedAt, 1) {
      var budget := MaxInt(0, PagesNeeded(start, end, 1, step));
      CompleteExactly(data, 1, NeverFails, 0, budget, start, end, step, requestedAt);
      ServedJoints(w, 1, step, budget, NeverFails);
      OneRowJoints(w, step);
    }
  }

  lemma {:induction false} PutAllFresh(rows: seq<Row>)
    requires DistinctOpens(rows)
    ensures PutAll([], rows) == rows
  {
    if rows != [] {
      PutAllFresh(rows[..|rows| - 1]);
      PutFresh(rows[..|rows| - 1], rows[|rows| - 1]);
    }
  }

  lemma {:induction false} PutFresh(m: seq<Row>, r: Row)
    requires forall x :: x in m ==> x.openMs != r.openMs
    ensures Put(m, r) == m + [r]
  {
    if m != [] {
      assert m[0] in m;
      PutFresh(m[1..], r);
    }
  }

  lemma ConcludeKeeps(w: Walked, start: int, end: int)
    requires Ascending(w.rows) && forall r :: r in w.rows ==> start <= r.openMs <= end
    ensures Conclude(w, start, end).candles == w.rows
  {
    hide PutAll, Filter, SortBy;
    PutAllFresh(w.rows);
    FilterAll(w.rows, OpenIn(start, end));
    SortedIsFixed(w.rows, RowOpen);
  }

  /** Paged equals unpaged: the downloaded candles are the one big query if and only if every page that holds wanted
      rows is served; with all joints in order they are a prefix of it whatever happens; and the download never
      stalls. */
  lemma PagedEqualsUnpaged(data: seq<Row>, start: int, end: int, step: int, requestedAt: int, limit: nat,
                           fails: nat -> bool, budget: nat)
    requires Series(data) && step > 0 && limit >= 1
    ensures var w := Wanted(data, start, end, requestedAt);
            var walked := Walk(Server(data, end, limit, fails), 0, budget, start, end, step, requestedAt);
            var r := Conclude(walked, start, end);
            && (r.candles == w <==> AllServed(w, limit, step, budget, fails, 0))
            && (JointsHold(w, limit, step) ==> r.candles <= w)
            && DidNotAdvance !in r.failures
  {
    hide Filter, Wanted, Walk, Series, PutAll, SortBy, AllServed, JointsHold, Ascending;
    var walked := Walk(Server(data, end, limit, fails), 0, budget, start, end, step, requestedAt);
    WalkRowsAscend(data, limit, fails, 0, budget, start, end, step, requestedAt);
    ConcludeKeeps(walked, start, end);
    CompleteExactly(data, limit, fails, 0, budget, start, end, step, requestedAt);
    if JointsHold(Wanted(data, start, end, requestedAt), limit, step) {
      WalkIsPrefix(data, limit, fails, 0, budget, start, end, step, requestedAt);
    }
  }

  /** A walk never yields more rows than its pages can hold. */
  lemma {:induction false} RowsFitThePages(data: seq<Row>, limit: nat, fails: nat -> bool, page: nat, budget: nat,
                                           cursor: int, end: int, step: int, requestedAt: int)
    requires page <= budget
    ensures |Walk(Server(data, end, limit, fails), page, budget, cursor, end, step, requestedAt).rows|
         <= (budget - page) * limit
    decreases budget - page
  {
    hide LastOpen, Filter;
    if page < budget {
      TimesMonotone(0, budget - page - 1, limit);
      assert (budget - page) * limit == (budget - page - 1) * limit + limit;
      if cursor <= end && !fails(page) {
        var closed := Filter(Take(Filter(data, OpenIn(cursor, end)), limit), ClosedAt(requestedAt));
        if closed != [] && LastOpen(closed) + step > cursor {
          RowsFitThePages(data, limit, fails, page + 1, budget, LastOpen(closed) + step, end, step, requestedAt);
        }
      }
    }
  }

  const DAY_MS := 86400000

  /** February and March of a year that is not a leap year, counted from the first of February. */
  const SHORT_MONTHS := [Row(0, 28 * DAY_MS - 1, 0), Row(28 * DAY_MS, 59 * DAY_MS - 1, 1)]

  lemma ShortMonths()
    ensures Series(SHORT_MONTHS) && Wanted(SHORT_MONTHS, 0, 59 * DAY_MS, 100 * DAY_MS) == SHORT_MONTHS
  {
    FilterAll(SHORT_MONTHS, OpenIn(0, 59 * DAY_MS));
    FilterAll(SHORT_MONTHS, ClosedAt(100 * DAY_MS));
  }

  /** February is shorter than the thirty days of the program's table: with one row per page the month after it is
      skipped however many pages there are, and with the default limit, where both share a page, it is not. */
  lemma MonthlyCandlesAreLost(budget: nat)
    ensures Walk(Server(SHORT_MONTHS, 59 * DAY_MS, 1, NeverFails), 0, budget, 0, 59 * DAY_MS, IntervalMs(Month1),
                 100 * DAY_MS).rows != Wanted(SHORT_MONTHS, 0, 59 * DAY_MS, 100 * DAY_MS)
    ensures budget >= 1 ==>
              Walk(Server(SHORT_MONTHS, 59 * DAY_MS, DEFAULT_LIMIT, NeverFails), 0, budget, 0, 59 * DAY_MS,
                   IntervalMs(Month1), 100 * DAY_MS).rows == Wanted(SHORT_MONTHS, 0, 59 * DAY_MS, 100 * DAY_MS)
  {
    hide Wanted, Walk, Series, AllServed;
    ShortMonths();
    CompleteExactly(SHORT_MONTHS, 1, NeverFails, 0, budget, 0, 59 * DAY_MS, IntervalMs(Month1), 100 * DAY_MS);
    FebruaryJoint(budget);
    CompleteExactly(SHORT_MONTHS, DEFAULT_LIMIT, NeverFails, 0, budget, 0, 59 * DAY_MS, IntervalMs(Month1),
                    100 * DAY_MS);
    LastPageServed(SHORT_MONTHS, DEFAULT_LIMIT, IntervalMs(Month1), budget, NeverFails, 0);
  }

  lemma FebruaryJoint(budget: nat)
    ensures !AllServed(SHORT_MONTHS, 1, IntervalMs(Month1), budget, NeverFails, 0)
  {
    assert !PageServed(SHORT_MONTHS, 1, IntervalMs(Month1), budget, NeverFails, 0, 1);
  }

  // ----- nothing is lost silently

  lemma {:induction false} StopsForAReason(data: seq<Row>, limit: nat, fails: nat -> bool, page: nat, budget: nat,
                                           cursor: int, end: int, step: int, requestedAt: int)
    requires Series(data) && step > 0 && limit >= 1 && page <= budget
    requires JointsHold(Wanted(data, cursor, end, requestedAt), limit, step)
    ensures var walked := Walk(Server(data, end, limit, fails), page, budget, cursor, end, step, requestedAt);
            walked.failure == None && walked.cursor > end ==> walked.rows == Wanted(data, cursor, end, requestedAt)
    decreases budget - page
  {
    hide Filter, Wanted, LastOpen, Series, JointHolds;
    var w := Wanted(data, cursor, end, requestedAt);
    WantedFacts(data, cursor, end, requestedAt);
    if page < budget && cursor <= end && !fails(page) && w != [] {
      TurnsOn(data, limit, fails, page, budget, cursor, end, step, requestedAt);
      hide Walk;
      PageStep(data, cursor, end, limit, step, requestedAt);
      assert JointHolds(w, limit, step, 1);
      RestJoints(w, limit, step);
      StopsForAReason(data, limit, fails, page + 1, budget, LastOpen(Take(w, limit)) + step, end, step, requestedAt);
    } else if page < budget && cursor <= end && !fails(page) {
      TurnsOn(data, limit, fails, page, budget, cursor, end, step, requestedAt);
    }
  }

  /** One turn of the loop, with the cursor and the failure that it hands on. */
  lemma TurnsOn(data: seq<Row>, limit: nat, fails: nat -> bool, page: nat, budget: nat, cursor: int, end: int,
                step: int, requestedAt: int)
    requires Series(data) && step > 0 && limit >= 1 && page < budget && cursor <= end && !fails(page)
    ensures var walked := Walk(Server(data, end, limit, fails), page, budget, cursor, end, step, requestedAt);
            var w := Wanted(data, cursor, end, requestedAt);
            if w == [] then walked == Walked([], cursor, None)
            else
              var rest := Walk(Server(data, end, limit, fails), page + 1, budget, LastOpen(Take(w, limit)) + step, end,
                               step, requestedAt);
              walked == rest.(rows := Take(w, limit) + rest.rows)
  {
    hide Filter, Wanted, LastOpen, Series;
    ServedRows(data, cursor, end, limit, requestedAt);
    if Wanted(data, cursor, end, requestedAt) != [] {
      PageStep(data, cursor, end, limit, step, requestedAt);
    }
  }

  /** A page that fails when the loop asks for it ends the walk with a failure; no other page does. */
  lemma {:induction false} FailureIsReported(data: seq<Row>, limit: nat, fails: nat -> bool, page: nat, budget: nat,
                                             cursor: int, end: int, step: int, requestedAt: int)
    requires Series(data) && step > 0 && limit >= 1 && page <= budget
    ensures var walked := Walk(Server(data, end, limit, fails), page, budget, cursor, end, step, requestedAt);
            && (page < budget && cursor <= end && fails(page) ==> walked == Walked([], cursor, Some(PageFailed)))
            && (walked.failure.Some? ==>
                  walked.failure == Some(PageFailed) && exists p: nat :: page <= p < budget && fails(p))
    decreases budget - page
  {
    hide Filter, Wanted, LastOpen, Series;
    if page < budget && cursor <= end && !fails(page) {
      TurnsOn(data, limit, fails, page, budget, cursor, end, step, requestedAt);
      hide Walk;
      var w := Wanted(data, cursor, end, requestedAt);
      if w != [] {
        FailureIsReported(data, limit, fails, page + 1, budget, LastOpen(Take(w, limit)) + step, end, step,
                          requestedAt);
      }
    }
  }

  /** With all joints in order, a download that is not the whole query says so: it reports a failed page, or that it
      stopped before the end; and one without candles always reports a reason. */
  lemma NothingIsLostSilently(data: seq<Row>, start: int, end: int, step: int, requestedAt: int, limit: nat,
                              fails: nat -> bool, budget: nat)
    requires Series(data) && step > 0 && limit >= 1
    requires JointsHold(Wanted(data, start, end, requestedAt), limit, step)
    ensures var walked := Walk(Server(data, end, limit, fails), 0, budget, start, end, step, requestedAt);
            var r := Conclude(walked, start, end);
            && (r.candles != Wanted(data, start, end, requestedAt) ==> PageFailed in r.failures || r.stoppedEarly)
            && (r.candles == [] ==> r.failures != [])
            && (PageFailed in r.failures ==> exists p: nat :: p < budget && fails(p))
  {
    hide Filter, Wanted, Walk, Series, PutAll, SortBy, JointsHold, Ascending;
    var walked := Walk(Server(data, end, limit, fails), 0, budget, start, end, step, requestedAt);
    WalkRowsAscend(data, limit, fails, 0, budget, start, end, step, requestedAt);
    ConcludeKeeps(walked, start, end);
    StopsForAReason(data, limit, fails, 0, budget, start, end, step, requestedAt);
    FailureIsReported(data, limit, fails, 0, budget, start, end, step, requestedAt);
  }

  // ----- the last row of each opening time counts

  ghost predicate LastOf(rows: seq<Row>, r: Row) {
    exists k :: 0 <= k < |rows| && rows[k] == r && forall j :: k < j < |rows| ==> rows[j].openMs != r.openMs
  }

  lemma LastOfAppend(rows: seq<Row>, x: Row, r: Row)
    ensures LastOf(rows + [x], r) <==> r == x || (LastOf(rows, r) && r.openMs != x.openMs)
  {
    var all := rows + [x];
    if LastOf(all, r) && r != x {
      var k :| 0 <= k < |all| && all[k] == r && forall j :: k < j < |all| ==> all[j].openMs != r.openMs;
      assert k < |rows| && all[|rows|] == x;
      assert rows[k] == r && forall j :: k < j < |rows| ==> all[j] == rows[j];
    }
    if r == x {
      assert all[|rows|] == r;
    } else if LastOf(rows, r) && r.openMs != x.openMs {
      var k :| 0 <= k < |rows| && rows[k] == r && forall j :: k < j < |rows| ==> rows[j].openMs != r.openMs;
      assert all[k] == r && forall j :: k < j < |all| ==> all[j] == if j < |rows| then rows[j] else x;
    }
  }

  lemma {:induction false} PutMembers(m: seq<Row>, r: Row, x: Row)
    requires DistinctOpens(m)
    ensures x in Put(m, r) <==> x == r || (x in m && x.openMs != r.openMs)
  {
    if m != [] {
      assert DistinctOpens(m[1..]);
      PutMembers(m[1..], r, x);
      assert x in m <==> x == m[0] || x in m[1..];
      if m[0].openMs == r.openMs {
        forall y | y in m[1..]
          ensures y.openMs != m[0].openMs
        {
          var i :| 0 <= i < |m[1..]| && m[1..][i] == y;
          assert m[i + 1] == y;
        }
      }
    }
  }

  /** Where pages overlap, the row that arrived last for an opening time is the one that is kept, and no opening time is
      dropped. */
  lemma {:induction false} LastRowWins(rows: seq<Row>, x: Row)
    ensures x in PutAll([], rows) <==> LastOf(rows, x)
  {
    if rows != [] {
      var m := |rows| - 1;
      assert rows == rows[..m] + [rows[m]];
      LastRowWins(rows[..m], x);
      PutAllKeeps(rows[..m]);
      PutMembers(PutAll([], rows[..m]), rows[m], x);
      LastOfAppend(rows[..m], rows[m], x);
    }
  }
}
