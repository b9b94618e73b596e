/** Paged download of historical candles: ask from a cursor, keep the closed rows, move the cursor past the
    last one, stop at the end, at an empty page, at a failure or at the page limit. A server is a function
    from page number and cursor to a page. */
module History {
  import opened Candles
  import opened Options
  import opened Rounding
  import opened Sorting

  datatype Row = Row(openMs: int, closeMs: int, payload: int)

  /** A failed page stands for an HTTP error, a timeout, a body that is no array or a malformed row. */
  datatype Page = FailedPage | Rows(rows: seq<Row>)

  type Fetch = (nat, int) -> Page

  datatype Failure = InvalidRange | NotNative | PageFailed | DidNotAdvance | NothingClosed

  datatype Result = Result(candles: seq<Row>, failures: seq<Failure>, stoppedEarly: bool)

  const DEFAULT_LIMIT := 1000
  const DEFAULT_MAX_PAGES := 80

  function RowOpen(r: Row): int { r.openMs }

  /** A row is closed when the request was made after its close time. */
  function ClosedAt(requestedAt: int): Row -> bool { (r: Row) => requestedAt > r.closeMs }

  function OpenIn(from: int, to: int): Row -> bool { (r: Row) => from <= r.openMs <= to }

  function From(t: int): Row -> bool { (r: Row) => r.openMs >= t }

  // ----- the loop

  /** `Map.set` on a map keyed by opening time that remembers insertion order. */
  function Put(m: seq<Row>, r: Row): (out: seq<Row>)
    ensures |out| == if exists i :: 0 <= i < |m| && m[i].openMs == r.openMs then |m| else |m| + 1
  {
    if m == [] then [r]
    else if m[0].openMs == r.openMs then [r] + m[1..]
    else
      assert forall i :: 0 <= i < |m| - 1 ==> m[1..][i] == m[i + 1];
      [m[0]] + Put(m[1..], r)
  }

  function PutAll(m: seq<Row>, rows: seq<Row>): seq<Row> {
    if rows == [] then m else Put(PutAll(m, rows[..|rows| - 1]), rows[|rows| - 1])
  }

  function LastOpen(rows: seq<Row>): int
    requires rows != []
  {
    var r := rows[|rows| - 1].openMs;
    if |rows| == 1 then r else MaxInt(LastOpen(rows[..|rows| - 1]), r)
  }

  /** Whatever the order of a page, its last opening time is the latest of its rows. */
  lemma {:induction false} LastOpenIsLatest(rows: seq<Row>)
    requires rows != []
    ensures exists r :: r in rows && r.openMs == LastOpen(rows)
    ensures forall r :: r in rows ==> r.openMs <= LastOpen(rows)
  {
    var n := |rows| - 1;
    assert rows[n] in rows && rows == rows[..n] + [rows[n]];
    if n > 0 {
      LastOpenIsLatest(rows[..n]);
    }
  }

  /** The closed rows of all pages in the order they arrive, where the cursor ends up, and what went wrong. */
  datatype Walked = Walked(rows: seq<Row>, cursor: int, failure: Option<Failure>)

  function Walk(fetch: Fetch, page: nat, maxPages: nat, cursor: int, end: int, step: int, requestedAt: int): Walked
    requires page <= maxPages
    decreases maxPages - page
  {
    if page == maxPages || cursor > end then Walked([], cursor, None)
    else
      match fetch(page, cursor)
      case FailedPage => Walked([], cursor, Some(PageFailed))
      case Rows(rows) =>
        var closed := Filter(rows, ClosedAt(requestedAt));
        if closed == [] then Walked([], cursor, None)
        else if LastOpen(closed) + step <= cursor then Walked(closed, cursor, Some(DidNotAdvance))
        else
          var rest := Walk(fetch, page + 1, maxPages, LastOpen(closed) + step, end, step, requestedAt);
          rest.(rows := closed + rest.rows)
  }

  /** What the download returns for a walk. */
  function Conclude(w: Walked, start: int, end: int): Result {
    var candles := SortBy(Filter(PutAll([], w.rows), OpenIn(start, end)), RowOpen);
    var failures := match w.failure case None => [] case Some(f) => [f];
    Result(candles, if candles == [] && failures == [] then [NothingClosed] else failures,
           w.cursor <= end && w.failure.None?)
  }

  method ParseKlinesPage(rows: seq<Row>, requestedAt: int) returns (candles: seq<Row>)
    ensures candles == Filter(rows, ClosedAt(requestedAt))
  {
    candles := [];
    for index := 0 to |rows|
      invariant candles == Filter(rows[..index], ClosedAt(requestedAt))
    {
      assert rows[..index + 1][..index] == rows[..index];
      if requestedAt > rows[index].closeMs {
        candles := candles + [rows[index]];
      }
    }
    assert rows[..|rows|] == rows;
  }

  method PutRows(m: seq<Row>, rows: seq<Row>) returns (out: seq<Row>)
    ensures out == PutAll(m, rows)
  {
    out := m;
    for k := 0 to |rows|
      invariant out == PutAll(m, rows[..k])
    {
      assert rows[..k + 1][..k] == rows[..k];
      out := Put(out, rows[k]);
    }
    assert rows[..|rows|] == rows;
  }

  function PageLimit(limit: Option<int>): (r: nat)
    ensures 1 <= r <= DEFAULT_LIMIT && (limit.None? ==> r == DEFAULT_LIMIT)
    ensures limit.Some? ==> (limit.value < r ==> r == 1) && (limit.value > r ==> r == DEFAULT_LIMIT)
  {
    MaxInt(1, MinInt(DEFAULT_LIMIT, limit.GetOr(DEFAULT_LIMIT)))
  }

  /** The number of pages the loop may fetch; a negative option allows none. */
  function PageBudget(maxPages: Option<int>): (r: nat)
    ensures maxPages.None? ==> r == 80
    ensures maxPages.Some? ==> r >= maxPages.value && (r > maxPages.value ==> r == 0)
  {
    MaxInt(0, maxPages.GetOr(DEFAULT_MAX_PAGES))
  }

  function Prepend(rows: seq<Row>, w: Walked): Walked { w.(rows := rows + w.rows) }

  lemma PrependEmpty(w: Walked)
    ensures Prepend([], w) == w
  {
    assert [] + w.rows == w.rows;
  }

  method DownloadPages(fetch: Fetch, start: int, end: int, step: int, requestedAt: int, budget: nat)
    returns (byStart: seq<Row>, cursor: int, failure: Option<Failure>)
    ensures var walked := Walk(fetch, 0, budget, start, end, step, requestedAt);
            byStart == PutAll([], walked.rows) && cursor == walked.cursor && failure == walked.failure
  {
    hide PutAll, LastOpen, Filter, Prepend;
    ghost var walked := Walk(fetch, 0, budget, start, end, step, requestedAt);
    byStart, cursor, failure := [], start, None;
    ghost var arrived: seq<Row> := [];
    var page: nat := 0;
    EmptyPut();
    PrependEmpty(walked);
    while page < budget && cursor <= end
      invariant page <= budget && failure.None? && byStart == PutAll([], arrived)
      invariant walked == Prepend(arrived, Walk(fetch, page, budget, cursor, end, step, requestedAt))
      decreases budget - page
    {
      match fetch(page, cursor) {
        case FailedPage =>
          failure := Some(PageFailed);
          PrependNothing(arrived, cursor, failure);
          return;
        case Rows(rows) =>
          var closed := ParseKlinesPage(rows, requestedAt);
          if closed == [] {
            PrependNothing(arrived, cursor, None);
            return;
          }
          PutAllConcat([], arrived, closed);
          byStart := PutRows(byStart, closed);
          var nextCursor := LastOpen(closed) + step;
          if nextCursor <= cursor {
            failure := Some(DidNotAdvance);
            PrependRows(arrived, closed, cursor, failure);
            return;
          }
          PrependRest(arrived, closed, Walk(fetch, page + 1, budget, nextCursor, end, step, requestedAt));
          arrived := arrived + closed;
          cursor := nextCursor;
          page := page + 1;
      }
    }
    PrependNothing(arrived, cursor, None);
  }

  lemma PrependNothing(arrived: seq<Row>, cursor: int, failure: Option<Failure>)
    ensures Prepend(arrived, Walked([], cursor, failure)) == Walked(arrived, cursor, failure)
  {
    assert arrived + [] == arrived;
  }

  lemma PrependRows(arrived: seq<Row>, rows: seq<Row>, cursor: int, failure: Option<Failure>)
    ensures Prepend(arrived, Walked(rows, cursor, failure)) == Walked(arrived + rows, cursor, failure)
  {
  }

  lemma PrependRest(arrived: seq<Row>, rows: seq<Row>, w: Walked)
    ensures Prepend(arrived, w.(rows := rows + w.rows)) == Prepend(arrived + rows, w)
  {
    assert arrived + (rows + w.rows) == (arrived + rows) + w.rows;
  }

  /** Binance serves every interval of the table but the ten-minute one. */
  predicate Native(interval: Interval) { !interval.M10? }

  /** `server(limit)` answers pages of at most `limit` rows. */
  method FetchHistoricalKlines(server: nat -> Fetch, start: int, end: int, interval: Interval, requestedAt: int,
                               limit: Option<int>, maxPages: Option<int>)
    returns (r: Result)
    ensures start >= end ==> r == Result([], [InvalidRange], false)
    ensures start < end && !Native(interval) ==> r == Result([], [NotNative], false)
    ensures start < end && Native(interval) ==>
              r == Conclude(Walk(server(PageLimit(limit)), 0, PageBudget(maxPages), start, end, IntervalMs(interval),
                                 requestedAt), start, end)
  {
    hide PutAll, Walk, SortBy, Filter, IntervalSeconds, PageBudget;
    if start >= end {
      return Result([], [InvalidRange], false);
    }
    if !Native(interval) {
      return Result([], [NotNative], false);
    }
    var byStart, cursor, failure :=
      DownloadPages(server(PageLimit(limit)), start, end, IntervalMs(interval), requestedAt, PageBudget(maxPages));
    var candles := SortBy(Filter(byStart, OpenIn(start, end)), RowOpen);
    var failures := match failure case None => [] case Some(f) => [f];
    if candles == [] && failures == [] {
      failures := [NothingClosed];
    }
    r := Result(candles, failures, cursor <= end && failure.None?);
  }

  lemma EmptyPut()
    ensures PutAll([], []) == []
  {
  }

  lemma {:induction false} PutAllConcat(m: seq<Row>, a: seq<Row>, b: seq<Row>)
    ensures PutAll(m, a + b) == PutAll(PutAll(m, a), b)
  {
    hide Put;
    if b == [] {
      assert a + b == a;
    } else {
      PutAllConcat(m, a, b[..|b| - 1]);
      assert (a + b)[..|a + b| - 1] == a + b[..|b| - 1];
    }
  }
}
