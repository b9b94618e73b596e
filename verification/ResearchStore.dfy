/** The research store: the JSON-lines store as a class over its tables and files, and the SQLite store's
    bounded duplicate scan. */
module ResearchStore {
  import opened Options
  import opened Sorting
  import opened StoreTables

  const MARKET_SNAPSHOT_DEDUP_WINDOW_MS := 60000

  datatype SourceType = Live | Mock | Fixture | UnknownSource

  datatype Provider = PolymarketGamma | PolymarketClobPublic | BinanceSpotPublic | MockProvider | UnknownProvider

  datatype Snapshot = Snapshot(
    provider: Provider,
    sourceType: SourceType,
    symbol: string,
    marketId: Option<string>,
    rawHash: string,
    checkedAt: int,
    payload: int)

  datatype CandleRecord = CandleRecord(
    provider: Provider,
    sourceType: SourceType,
    symbol: string,
    interval: string,
    openTime: int,
    payload: int)

  /** `assertStoreSource` does not throw. */
  predicate SourceOk(provider: Provider, sourceType: SourceType) {
    !sourceType.UnknownSource? && !provider.UnknownProvider? && (provider.MockProvider? ==> sourceType.Mock?)
  }

  function SnapshotOk(r: Snapshot): bool { SourceOk(r.provider, r.sourceType) }

  function CandleOk(r: CandleRecord): bool { SourceOk(r.provider, r.sourceType) }

  predicate SameKey(a: Snapshot, b: Snapshot) {
    a.provider == b.provider && a.sourceType == b.sourceType && a.symbol == b.symbol
    && a.marketId.GetOr("") == b.marketId.GetOr("") && a.rawHash == b.rawHash
  }

  predicate Near(x: int, y: int) { -MARKET_SNAPSHOT_DEDUP_WINDOW_MS <= x - y <= MARKET_SNAPSHOT_DEDUP_WINDOW_MS }

  function SnapshotClash(item: Snapshot, r: Snapshot): bool { SameKey(item, r) && Near(item.checkedAt, r.checkedAt) }

  function CandleClash(item: CandleRecord, r: CandleRecord): bool {
    item.symbol == r.symbol && item.interval == r.interval && item.openTime == r.openTime && item.provider == r.provider
  }

  function InsertSnapshots(t: seq<Stored<Snapshot>>, rs: seq<Snapshot>): Outcome<Snapshot> {
    InsertAll(t, rs, SnapshotOk, SnapshotClash)
  }

  function InsertCandles(t: seq<Stored<CandleRecord>>, rs: seq<CandleRecord>): Outcome<CandleRecord> {
    InsertAll(t, rs, CandleOk, CandleClash)
  }

  // ----- the range query

  datatype Query = Query(symbol: string, interval: string, from: int, to: int, provider: Option<Provider>)

  function Wanted(q: Query): Stored<CandleRecord> -> bool {
    (item: Stored<CandleRecord>) =>
      item.record.symbol == q.symbol && item.record.interval == q.interval
      && (q.provider.None? || item.record.provider == q.provider.value) && q.from <= item.record.openTime <= q.to
  }

  function OpenTimeOf(item: Stored<CandleRecord>): int { item.record.openTime }

  function RangeQuery(t: seq<Stored<CandleRecord>>, q: Query): seq<Stored<CandleRecord>> {
    SortBy(Filter(t, Wanted(q)), OpenTimeOf)
  }

  // ----- the JSON-lines store

  class JsonlResearchStore {
    var initialized: bool
    var marketSnapshots: seq<Stored<Snapshot>>
    var underlyingCandles: seq<Stored<CandleRecord>>
    /** The files on disk, one stored record per line. */
    var snapshotFile: seq<Stored<Snapshot>>
    var candleFile: seq<Stored<CandleRecord>>

    /** While the store is open, memory and the files agree. */
    predicate Valid()
      reads this
    {
      initialized ==> marketSnapshots == snapshotFile && underlyingCandles == candleFile
    }

    constructor (snapshotFile: seq<Stored<Snapshot>>, candleFile: seq<Stored<CandleRecord>>)
      ensures Valid() && !initialized
      ensures this.snapshotFile == snapshotFile && this.candleFile == candleFile
    {
      initialized := false;
      marketSnapshots, underlyingCandles := [], [];
      this.snapshotFile, this.candleFile := snapshotFile, candleFile;
    }

    /** Opening loads the tables from the files: what was in memory before a close is there again. */
    method Init()
      requires Valid()
      modifies this`initialized, this`marketSnapshots, this`underlyingCandles
      ensures Valid() && initialized
      ensures marketSnapshots == snapshotFile && underlyingCandles == candleFile
    {
      if initialized {
        return;
      }
      marketSnapshots := snapshotFile;
      underlyingCandles := candleFile;
      initialized := true;
    }

    method Close()
      requires Valid()
      modifies this`initialized
      ensures Valid() && !initialized
    {
      initialized := false;
    }

    method InsertMarketSnapshots(records: seq<Snapshot>) returns (inserted: int, skipped: int, threw: bool)
      requires Valid()
      modifies this`initialized, this`marketSnapshots, this`underlyingCandles, this`snapshotFile
      ensures Valid() && initialized
      ensures var o := InsertSnapshots(old(snapshotFile), records);
              && marketSnapshots == snapshotFile == o.table
              && inserted == o.inserted && skipped == o.skipped && threw == o.threw
    {
      Init();
      inserted, skipped, threw := 0, 0, false;
      InsertNothing(snapshotFile, SnapshotOk, SnapshotClash);
      assert records[..0] == [];
      hide InsertAll, Clashing, SameKey, Near, SourceOk;
      for k := 0 to |records|
        invariant Valid() && initialized && !threw && candleFile == old(candleFile)
        invariant Outcome(marketSnapshots, inserted, skipped, false) == InsertSnapshots(old(snapshotFile), records[..k])
      {
        var record := records[k];
        ghost var before := Outcome(marketSnapshots, inserted, skipped, false);
        assert InsertSnapshots(old(snapshotFile), records[..k + 1])
            == InsertOne(before, record, SnapshotOk, SnapshotClash) by {
          InsertAppend(old(snapshotFile), records[..k], record, SnapshotOk, SnapshotClash);
          assert records[..k + 1] == records[..k] + [record];
        }
        if !SourceOk(record.provider, record.sourceType) {
          threw := true;
          ThrowStops(old(snapshotFile), records, k + 1, SnapshotOk, SnapshotClash);
          return;
        }
        if Clashing(marketSnapshots, record, SnapshotClash) {
          skipped := skipped + 1;
        } else {
          var next := Stored(record, |marketSnapshots| + 1);
          marketSnapshots := marketSnapshots + [next];
          snapshotFile := snapshotFile + [next];
          inserted := inserted + 1;
        }
      }
      assert records[..|records|] == records;
    }

    method InsertUnderlyingCandles(records: seq<CandleRecord>) returns (inserted: int, skipped: int, threw: bool)
      requires Valid()
      modifies this`initialized, this`marketSnapshots, this`underlyingCandles, this`candleFile
      ensures Valid() && initialized
      ensures var o := InsertCandles(old(candleFile), records);
              && underlyingCandles == candleFile == o.table
              && inserted == o.inserted && skipped == o.skipped && threw == o.threw
    {
      Init();
      inserted, skipped, threw := 0, 0, false;
      InsertNothing(candleFile, CandleOk, CandleClash);
      assert records[..0] == [];
      hide InsertAll, Clashing, SameKey, Near, SourceOk;
      for k := 0 to |records|
        invariant Valid() && initialized && !threw && snapshotFile == old(snapshotFile)
        invariant Outcome(underlyingCandles, inserted, skipped, false) == InsertCandles(old(candleFile), records[..k])
      {
        var record := records[k];
        ghost var before := Outcome(underlyingCandles, inserted, skipped, false);
        assert InsertCandles(old(candleFile), records[..k + 1]) == InsertOne(before, record, CandleOk, CandleClash) by {
          InsertAppend(old(candleFile), records[..k], record, CandleOk, CandleClash);
          assert records[..k + 1] == records[..k] + [record];
        }
        if !SourceOk(record.provider, record.sourceType) {
          threw := true;
          ThrowStops(old(candleFile), records, k + 1, CandleOk, CandleClash);
          return;
        }
        if Clashing(underlyingCandles, record, CandleClash) {
          skipped := skipped + 1;
        } else {
          var next := Stored(record, |underlyingCandles| + 1);
          underlyingCandles := underlyingCandles + [next];
          candleFile := candleFile + [next];
          inserted := inserted + 1;
        }
      }
      assert records[..|records|] == records;
    }

    /** `close()` and then `init()`: the tables come back as they were. */
    method Reopen()
      requires Valid() && initialized
      modifies this`initialized, this`marketSnapshots, this`underlyingCandles
      ensures Valid() && initialized
      ensures marketSnapshots == old(marketSnapshots) && underlyingCandles == old(underlyingCandles)
    {
      Close();
      Init();
    }

    method GetUnderlyingCandles(q: Query) returns (rows: seq<Stored<CandleRecord>>)
      requires Valid()
      modifies this`initialized, this`marketSnapshots, this`underlyingCandles
      ensures Valid() && initialized
      ensures rows == RangeQuery(candleFile, q)
    {
      Init();
      rows := SortBy(Filter(underlyingCandles, Wanted(q)), OpenTimeOf);
    }
  }

  /** Once a record threw, the rest of the batch has no effect. */
  lemma {:induction false} ThrowStops<R(!new)>(t: seq<Stored<R>>, rs: seq<R>, k: nat, ok: R -> bool,
                                              clash: (R, R) -> bool)
    requires k <= |rs| && InsertAll(t, rs[..k], ok, clash).threw
    ensures InsertAll(t, rs, ok, clash) == InsertAll(t, rs[..k], ok, clash)
    decreases |rs|
  {
    if k == |rs| {
      assert rs[..k] == rs;
    } else {
      assert rs[..|rs| - 1][..k] == rs[..k];
      ThrowStops(t, rs[..|rs| - 1], k, ok, clash);
    }
  }

  // ----- all operation sequences

  datatype Operation =
    | Open
    | CloseStore
    | PutSnapshots(snapshots: seq<Snapshot>)
    | PutCandles(candles: seq<CandleRecord>)

  /** What is on disk after a sequence of operations; by the class, also what is in memory while open. */
  datatype Disk = Disk(snapshots: seq<Stored<Snapshot>>, candles: seq<Stored<CandleRecord>>)

  function Perform(d: Disk, op: Operation): Disk {
    match op
    case Open => d
    case CloseStore => d
    case PutSnapshots(rs) => d.(snapshots := InsertSnapshots(d.snapshots, rs).table)
    case PutCandles(rs) => d.(candles := InsertCandles(d.candles, rs).table)
  }

  function PerformAll(d: Disk, ops: seq<Operation>): Disk {
    if ops == [] then d else Perform(PerformAll(d, ops[..|ops| - 1]), ops[|ops| - 1])
  }

  /** Ids count from one; stored snapshots of one provider, source, symbol, market and hash are pairwise more than a
      minute apart; no two candles have the same symbol, interval, opening time and provider. */
  ghost predicate Clean(d: Disk) {
    && Numbered(d.snapshots) && Numbered(d.candles)
    && (forall i, j :: 0 <= i < |d.snapshots| && 0 <= j < |d.snapshots| && i != j ==>
          Unlike(d.snapshots[i].record, d.snapshots[j].record))
    && (forall i, j :: 0 <= i < |d.candles| && 0 <= j < |d.candles| && i != j ==>
          DifferentKeys(d.candles[i].record, d.candles[j].record))
  }

  predicate Unlike(a: Snapshot, b: Snapshot) {
    || a.provider != b.provider || a.sourceType != b.sourceType || a.symbol != b.symbol
    || a.marketId.GetOr("") != b.marketId.GetOr("") || a.rawHash != b.rawHash
    || a.checkedAt - b.checkedAt > 60000 || b.checkedAt - a.checkedAt > 60000
  }

  predicate DifferentKeys(a: CandleRecord, b: CandleRecord) {
    a.symbol != b.symbol || a.interval != b.interval || a.openTime != b.openTime || a.provider != b.provider
  }

  lemma CleanIsDeduplicated(d: Disk)
    ensures Clean(d) <==> Numbered(d.snapshots) && Numbered(d.candles)
                          && Deduplicated(d.snapshots, SnapshotClash) && Deduplicated(d.candles, CandleClash)
  {
    hide Numbered;
    if Deduplicated(d.snapshots, SnapshotClash) && Deduplicated(d.candles, CandleClash) {
      forall i, j | 0 <= i < |d.snapshots| && 0 <= j < |d.snapshots| && i != j
        ensures Unlike(d.snapshots[i].record, d.snapshots[j].record)
      {
        assert !SnapshotClash(d.snapshots[if i < j then i else j].record, d.snapshots[if i < j then j else i].record);
      }
      forall i, j | 0 <= i < |d.candles| && 0 <= j < |d.candles| && i != j
        ensures DifferentKeys(d.candles[i].record, d.candles[j].record)
      {
        assert !CandleClash(d.candles[if i < j then i else j].record, d.candles[if i < j then j else i].record);
      }
    }
    if Clean(d) {
      forall i, j | 0 <= i < j < |d.snapshots|
        ensures !SnapshotClash(d.snapshots[i].record, d.snapshots[j].record)
      {
        assert Unlike(d.snapshots[i].record, d.snapshots[j].record);
      }
      forall i, j | 0 <= i < j < |d.candles|
        ensures !CandleClash(d.candles[i].record, d.candles[j].record)
      {
        assert DifferentKeys(d.candles[i].record, d.candles[j].record);
      }
    }
  }

  /** Every sequence of operations leaves a clean store clean, an empty one in particular, whatever the batches
      hold; and it only ever appends. */
  lemma {:induction false} StoreStaysClean(d: Disk, ops: seq<Operation>)
    requires Clean(d)
    ensures Clean(PerformAll(d, ops))
    ensures d.snapshots <= PerformAll(d, ops).snapshots && d.candles <= PerformAll(d, ops).candles
  {
    if ops != [] {
      hide Clean;
      var before := PerformAll(d, ops[..|ops| - 1]);
      StoreStaysClean(d, ops[..|ops| - 1]);
      CleanIsDeduplicated(before);
      CleanIsDeduplicated(PerformAll(d, ops));
      match ops[|ops| - 1]
      case PutSnapshots(rs) => InsertKeepsTable(before.snapshots, rs, SnapshotOk, SnapshotClash);
      case PutCandles(rs) => InsertKeepsTable(before.candles, rs, CandleOk, CandleClash);
      case _ =>
    }
  }

  /** What one outcome after another amounts to. */
  function Then<R>(first: Outcome<R>, second: Outcome<R>): Outcome<R> {
    if first.threw then first
    else Outcome(second.table, first.inserted + second.inserted, first.skipped + second.skipped, second.threw)
  }

  /** Batches of snapshots and of candles alike: counts add up, splitting a batch changes neither table nor counts, and
      inserting one again inserts nothing. */
  lemma BatchLaws(d: Disk, a: seq<Snapshot>, b: seq<Snapshot>, c: seq<CandleRecord>, e: seq<CandleRecord>)
    ensures var o := InsertSnapshots(d.snapshots, a);
            && InsertSnapshots(d.snapshots, a + b) == Then(o, InsertSnapshots(o.table, b))
            && (!o.threw ==> o.inserted + o.skipped == |a|
                             && InsertSnapshots(o.table, a) == Outcome(o.table, 0, |a|, false))
    ensures var o := InsertCandles(d.candles, c);
            && InsertCandles(d.candles, c + e) == Then(o, InsertCandles(o.table, e))
            && (!o.threw ==> o.inserted + o.skipped == |c|
                             && InsertCandles(o.table, c) == Outcome(o.table, 0, |c|, false))
  {
    hide InsertAll;
    InsertKeepsTable(d.snapshots, a, SnapshotOk, SnapshotClash);
    InsertKeepsTable(d.candles, c, CandleOk, CandleClash);
    BatchesCompose(d.snapshots, a, b, SnapshotOk, SnapshotClash);
    BatchesCompose(d.candles, c, e, CandleOk, CandleClash);
    if !InsertSnapshots(d.snapshots, a).threw {
      ReinsertingChangesNothing(d.snapshots, a, SnapshotOk, SnapshotClash);
    }
    if !InsertCandles(d.candles, c).threw {
      ReinsertingChangesNothing(d.candles, c, CandleOk, CandleClash);
    }
  }

  // ----- what a range query answers

  ghost predicate RisingIds(t: seq<Stored<CandleRecord>>) { forall i, j :: 0 <= i < j < |t| ==> t[i].id < t[j].id }

  predicate Before(a: Stored<CandleRecord>, b: Stored<CandleRecord>) {
    a.record.openTime < b.record.openTime || (a.record.openTime == b.record.openTime && a.id < b.id)
  }

  /** `ORDER BY open_time ASC, id ASC`. */
  ghost predicate InQueryOrder(rows: seq<Stored<CandleRecord>>) {
    forall i, j :: 0 <= i < j < |rows| ==> Before(rows[i], rows[j])
  }

  lemma OrderAppend(s: seq<Stored<CandleRecord>>, x: Stored<CandleRecord>)
    requires InQueryOrder(s) && forall y :: y in s ==> Before(y, x)
    ensures InQueryOrder(s + [x])
  {
    forall i | 0 <= i < |s|
      ensures Before(s[i], x)
    {
      assert s[i] in s;
    }
  }

  lemma LastIsLatest(s: seq<Stored<CandleRecord>>, x: Stored<CandleRecord>)
    requires InQueryOrder(s) && (s != [] ==> OpenTimeOf(s[|s| - 1]) <= OpenTimeOf(x))
    requires forall y :: y in s ==> y.id < x.id
    ensures forall y :: y in s ==> Before(y, x)
  {
    forall y | y in s
      ensures Before(y, x)
    {
      var i :| 0 <= i < |s| && s[i] == y;
      assert i < |s| - 1 ==> Before(s[i], s[|s| - 1]);
    }
  }

  lemma {:induction false} InsertInOrder(s: seq<Stored<CandleRecord>>, x: Stored<CandleRecord>)
    requires InQueryOrder(s) && forall y :: y in s ==> y.id < x.id
    ensures InQueryOrder(Insert(s, x, OpenTimeOf))
    ensures forall y :: y in Insert(s, x, OpenTimeOf) ==> y in s || y == x
  {
    if s == [] || OpenTimeOf(s[|s| - 1]) <= OpenTimeOf(x) {
      LastIsLatest(s, x);
      OrderAppend(s, x);
    } else {
      var m := |s| - 1;
      InsertInOrder(s[..m], x);
      forall y | y in Insert(s[..m], x, OpenTimeOf)
        ensures Before(y, s[m])
      {
        if y in s[..m] {
          var i :| 0 <= i < m && s[i] == y;
        }
      }
      OrderAppend(Insert(s[..m], x, OpenTimeOf), s[m]);
    }
  }

  lemma {:induction false} SortInOrder(s: seq<Stored<CandleRecord>>)
    requires RisingIds(s)
    ensures InQueryOrder(SortBy(s, OpenTimeOf))
  {
    if s != [] {
      hide Insert, InQueryOrder;
      var m := |s| - 1;
      SortInOrder(s[..m]);
      SortMembers(s[..m], OpenTimeOf);
      forall y | y in SortBy(s[..m], OpenTimeOf)
        ensures y.id < s[m].id
      {
        assert y in s[..m];
      }
      InsertInOrder(SortBy(s[..m], OpenTimeOf), s[m]);
    } else {
      assert SortBy(s, OpenTimeOf) == [];
    }
  }

  lemma {:induction false} FilterRises(t: seq<Stored<CandleRecord>>, p: Stored<CandleRecord> -> bool)
    requires RisingIds(t)
    ensures RisingIds(Filter(t, p))
  {
    if t != [] {
      var m := |t| - 1;
      var before := Filter(t[..m], p);
      FilterRises(t[..m], p);
      FilterMembers(t[..m], p);
      forall i | 0 <= i < |before|
        ensures before[i].id < t[m].id
      {
        assert before[i] in before;
        assert before[i] in t[..m];
      }
    }
  }

  /** On a clean store, a range query answers exactly the stored candles it asks for, in the order in which the
      SQLite store is asked for them; of one provider, no opening time comes twice. */
  lemma RangeQueryAnswers(d: Disk, q: Query)
    requires Clean(d)
    ensures var rows := RangeQuery(d.candles, q);
            && (forall x :: x in rows <==>
                  && x in d.candles && x.record.symbol == q.symbol && x.record.interval == q.interval
                  && q.from <= x.record.openTime && x.record.openTime <= q.to
                  && (q.provider == None || q.provider == Some(x.record.provider)))
            && InQueryOrder(rows)
            && (q.provider.Some? ==>
                  forall i, j :: 0 <= i < j < |rows| ==> rows[i].record.openTime < rows[j].record.openTime)
  {
    hide SortBy, Filter;
    var rows := RangeQuery(d.candles, q);
    FilterMembers(d.candles, Wanted(q));
    SortMembers(Filter(d.candles, Wanted(q)), OpenTimeOf);
    assert RisingIds(d.candles);
    FilterRises(d.candles, Wanted(q));
    SortInOrder(Filter(d.candles, Wanted(q)));
    if q.provider.Some? {
      forall i, j | 0 <= i < j < |rows|
        ensures rows[i].record.openTime < rows[j].record.openTime
      {
        assert rows[i] in rows && rows[j] in rows && Before(rows[i], rows[j]);
        OneCandlePerTime(d, rows[i], rows[j], q);
      }
    }
  }

  lemma OneCandlePerTime(d: Disk, a: Stored<CandleRecord>, b: Stored<CandleRecord>, q: Query)
    requires Clean(d) && a in d.candles && b in d.candles && a.id != b.id
    requires Wanted(q)(a) && Wanted(q)(b) && q.provider.Some?
    ensures a.record.openTime != b.record.openTime
  {
    var i :| 0 <= i < |d.candles| && d.candles[i] == a;
    var j :| 0 <= j < |d.candles| && d.candles[j] == b;
    assert DifferentKeys(d.candles[i].record, d.candles[j].record);
  }

  // ----- the bounded scan of the SQLite store

  function SameKeyAs(r: Snapshot): Stored<Snapshot> -> bool { (item: Stored<Snapshot>) => SameKey(item.record, r) }

  function Times(t: seq<Stored<Snapshot>>): seq<int> {
    if t == [] then [] else Times(t[..|t| - 1]) + [t[|t| - 1].record.checkedAt]
  }

  function Newest(x: int): int { -x }

  /** The check times of the rows of the record's key, newest first. */
  function MatchingTimes(t: seq<Stored<Snapshot>>, r: Snapshot): seq<int> {
    SortBy(Times(Filter(t, SameKeyAs(r))), Newest)
  }

  /** `ORDER BY checked_at DESC LIMIT 10`, then a test of those rows only. */
  predicate HasNearDuplicateSnapshot(t: seq<Stored<Snapshot>>, r: Snapshot) {
    var times := MatchingTimes(t, r);
    exists k :: 0 <= k < |times| && k < 10 && Near(r.checkedAt, times[k])
  }

  function InsertOneBounded(o: Outcome<Snapshot>, r: Snapshot): Outcome<Snapshot> {
    if o.threw then o
    else if !SnapshotOk(r) then o.(threw := true)
    else if HasNearDuplicateSnapshot(o.table, r) then o.(skipped := o.skipped + 1)
    else o.(table := o.table + [Stored(r, |o.table| + 1)], inserted := o.inserted + 1)
  }

  function InsertAllBounded(t: seq<Stored<Snapshot>>, rs: seq<Snapshot>): Outcome<Snapshot> {
    if rs == [] then Outcome(t, 0, 0, false)
    else InsertOneBounded(InsertAllBounded(t, rs[..|rs| - 1]), rs[|rs| - 1])
  }

  class SqliteResearchStore {
    var rows: seq<Stored<Snapshot>>

    method InsertMarketSnapshots(records: seq<Snapshot>) returns (inserted: int, skipped: int, threw: bool)
      modifies this
      ensures Outcome(rows, inserted, skipped, threw) == InsertAllBounded(old(rows), records)
    {
      inserted, skipped, threw := 0, 0, false;
      for k := 0 to |records|
        invariant !threw
        invariant Outcome(rows, inserted, skipped, false) == InsertAllBounded(old(rows), records[..k])
      {
        var record := records[k];
        assert records[..k + 1][..k] == records[..k];
        if !SourceOk(record.provider, record.sourceType) {
          threw := true;
          BoundedThrowStops(old(rows), records, k + 1);
          return;
        }
        if HasNearDuplicateSnapshot(rows, record) {
          skipped := skipped + 1;
        } else {
          rows := rows + [Stored(record, |rows| + 1)];
          inserted := inserted + 1;
        }
      }
      assert records[..|records|] == records;
    }
  }

  lemma {:induction false} BoundedThrowStops(t: seq<Stored<Snapshot>>, rs: seq<Snapshot>, k: nat)
    requires k <= |rs| && InsertAllBounded(t, rs[..k]).threw
    ensures InsertAllBounded(t, rs) == InsertAllBounded(t, rs[..k])
    decreases |rs|
  {
    if k == |rs| {
      assert rs[..k] == rs;
    } else {
      assert rs[..|rs| - 1][..k] == rs[..k];
      BoundedThrowStops(t, rs[..|rs| - 1], k);
    }
  }

  lemma {:induction false} TimesHold(t: seq<Stored<Snapshot>>, x: int)
    ensures x in Times(t) <==> exists i :: 0 <= i < |t| && t[i].record.checkedAt == x
  {
    if t != [] {
      var m := |t| - 1;
      TimesHold(t[..m], x);
      if t[m].record.checkedAt == x {
        assert exists i :: 0 <= i < |t| && t[i].record.checkedAt == x;
      } else if exists i :: 0 <= i < |t| && t[i].record.checkedAt == x {
        var i :| 0 <= i < |t| && t[i].record.checkedAt == x;
        assert t[..m][i].record.checkedAt == x;
      }
    }
  }

  /** The full scan, in terms of the matching times. */
  lemma FullScanTimes(t: seq<Stored<Snapshot>>, r: Snapshot)
    ensures Clashing(t, r, SnapshotClash) <==>
              exists k :: 0 <= k < |MatchingTimes(t, r)| && Near(r.checkedAt, MatchingTimes(t, r)[k])
  {
    hide SortBy, Filter, Times;
    var rows := Filter(t, SameKeyAs(r));
    var times := MatchingTimes(t, r);
    FilterMembers(t, SameKeyAs(r));
    SortMembers(Times(rows), Newest);
    if Clashing(t, r, SnapshotClash) {
      var i :| 0 <= i < |t| && SnapshotClash(t[i].record, r);
      assert t[i] in rows;
      TimesHold(rows, t[i].record.checkedAt);
      assert t[i].record.checkedAt in times;
    }
    if exists k :: 0 <= k < |times| && Near(r.checkedAt, times[k]) {
      var k :| 0 <= k < |times| && Near(r.checkedAt, times[k]);
      assert times[k] in times;
      TimesHold(rows, times[k]);
      var i :| 0 <= i < |rows| && rows[i].record.checkedAt == times[k];
      assert rows[i] in t;
      var j :| 0 <= j < |t| && t[j] == rows[i];
      assert SnapshotClash(t[j].record, r);
    }
  }

  lemma TimesNewestFirst(t: seq<Stored<Snapshot>>, r: Snapshot)
    ensures forall i, j :: 0 <= i < j < |MatchingTimes(t, r)| ==> MatchingTimes(t, r)[i] >= MatchingTimes(t, r)[j]
  {
    hide SortBy;
    SortSorts(Times(Filter(t, SameKeyAs(r))), Newest);
    var times := MatchingTimes(t, r);
    forall i, j | 0 <= i < j < |times|
      ensures times[i] >= times[j]
    {
      assert Newest(times[i]) <= Newest(times[j]);
    }
  }

  /** The bounded scan gives the verdict of the full scan when at most ten rows match, or the record is no more
      than the window older than the tenth newest; when it is older than that, the bounded scan finds nothing. */
  lemma BoundedScanAgrees(t: seq<Stored<Snapshot>>, r: Snapshot)
    ensures var times := MatchingTimes(t, r);
            if |times| <= 10 || r.checkedAt >= times[9] - MARKET_SNAPSHOT_DEDUP_WINDOW_MS
            then HasNearDuplicateSnapshot(t, r) == Clashing(t, r, SnapshotClash)
            else !HasNearDuplicateSnapshot(t, r)
  {
    hide MatchingTimes;
    var times := MatchingTimes(t, r);
    FullScanTimes(t, r);
    TimesNewestFirst(t, r);
    if |times| > 10 && r.checkedAt >= times[9] - MARKET_SNAPSHOT_DEDUP_WINDOW_MS && Clashing(t, r, SnapshotClash) {
      var k :| 0 <= k < |times| && Near(r.checkedAt, times[k]);
      if k >= 10 {
        assert Near(r.checkedAt, times[9]);
      }
    }
  }

  /** On a table that the store keeps clean, the two scans agree on every record of a key if and only if at most
      ten rows match: with an eleventh row, offering that row again fools the bounded scan. */
  lemma BoundedScanExactly(t: seq<Stored<Snapshot>>, r: Snapshot)
    requires Deduplicated(t, SnapshotClash)
    ensures (forall now: int :: ScansAgree(t, r.(checkedAt := now))) <==> |MatchingTimes(t, r)| <= 10
  {
    hide SortBy, MatchingTimes;
    forall now: int
      ensures MatchingTimes(t, r.(checkedAt := now)) == MatchingTimes(t, r)
    {
      SameKeySameTimes(t, r, r.(checkedAt := now));
    }
    var times := MatchingTimes(t, r);
    if |times| <= 10 {
      forall now: int
        ensures ScansAgree(t, r.(checkedAt := now))
      {
        BoundedScanAgrees(t, r.(checkedAt := now));
      }
    } else {
      var again := r.(checkedAt := times[10]);
      TimesApart(t, r, 9, 10);
      TimesNewestFirst(t, r);
      BoundedScanAgrees(t, again);
      FullScanTimes(t, again);
      assert Near(again.checkedAt, times[10]);
      assert !ScansAgree(t, again);
    }
  }

  predicate ScansAgree(t: seq<Stored<Snapshot>>, r: Snapshot) {
    HasNearDuplicateSnapshot(t, r) == Clashing(t, r, SnapshotClash)
  }

  lemma {:induction false} SameKeyFilters(t: seq<Stored<Snapshot>>, a: Snapshot, b: Snapshot)
    requires b == a.(checkedAt := b.checkedAt)
    ensures Filter(t, SameKeyAs(a)) == Filter(t, SameKeyAs(b))
  {
    if t != [] {
      SameKeyFilters(t[..|t| - 1], a, b);
    }
  }

  lemma SameKeySameTimes(t: seq<Stored<Snapshot>>, a: Snapshot, b: Snapshot)
    requires b == a.(checkedAt := b.checkedAt)
    ensures MatchingTimes(t, a) == MatchingTimes(t, b)
  {
    SameKeyFilters(t, a, b);
  }

  /** Stored times of one key lie more than the window apart. */
  ghost predicate FarApart(times: seq<int>) {
    forall i, j :: 0 <= i < |times| && 0 <= j < |times| && i != j ==> !Near(times[i], times[j])
  }

  lemma {:induction false} FarApartInsert(s: seq<int>, x: int)
    requires FarApart(s) && forall y :: y in s ==> !Near(y, x)
    ensures FarApart(Insert(s, x, Newest))
    ensures forall y :: y in Insert(s, x, Newest) ==> y in s || y == x
  {
    if s == [] || Newest(s[|s| - 1]) <= Newest(x) {
      forall i | 0 <= i < |s|
        ensures !Near(s[i], x)
      {
        assert s[i] in s;
      }
    } else {
      var m := |s| - 1;
      FarApartInsert(s[..m], x);
      var u := Insert(s[..m], x, Newest);
      assert s[m] in s;
      forall i | 0 <= i < |u|
        ensures !Near(u[i], s[m])
      {
        assert u[i] in u;
      }
    }
  }

  lemma {:induction false} FarApartSort(s: seq<int>)
    requires FarApart(s)
    ensures FarApart(SortBy(s, Newest))
  {
    if s != [] {
      var m := |s| - 1;
      FarApartSort(s[..m]);
      SortMembers(s[..m], Newest);
      forall y | y in SortBy(s[..m], Newest)
        ensures !Near(y, s[m])
      {
        assert y in s[..m];
      }
      FarApartInsert(SortBy(s[..m], Newest), s[m]);
    }
  }

  lemma FarApartAppend(times: seq<int>, x: int)
    requires FarApart(times) && forall y :: y in times ==> !Near(y, x)
    ensures FarApart(times + [x])
  {
    forall i | 0 <= i < |times|
      ensures !Near(times[i], x)
    {
      assert times[i] in times;
    }
  }

  lemma MatchesAreApart(t: seq<Stored<Snapshot>>, last: Stored<Snapshot>, r: Snapshot, x: int)
    requires Deduplicated(t + [last], SnapshotClash) && SameKey(last.record, r)
    requires x in Times(Filter(t, SameKeyAs(r)))
    ensures !Near(x, last.record.checkedAt)
  {
    hide Filter, Times;
    var rows := Filter(t, SameKeyAs(r));
    TimesHold(rows, x);
    var k :| 0 <= k < |rows| && rows[k].record.checkedAt == x;
    FilterMembers(t, SameKeyAs(r));
    assert rows[k] in t;
    var i :| 0 <= i < |t| && t[i] == rows[k];
    assert (t + [last])[i] == t[i] && (t + [last])[|t|] == last;
    assert !SnapshotClash(t[i].record, last.record);
  }

  lemma {:induction false} FarApartTimes(t: seq<Stored<Snapshot>>, r: Snapshot)
    requires Deduplicated(t, SnapshotClash)
    ensures FarApart(Times(Filter(t, SameKeyAs(r))))
  {
    if t != [] {
      hide FarApart, SameKey, Near;
      var m := |t| - 1;
      FarApartTimes(t[..m], r);
      var before := Filter(t[..m], SameKeyAs(r));
      assert t == t[..m] + [t[m]];
      if SameKeyAs(r)(t[m]) {
        assert (before + [t[m]])[..|before|] == before;
        forall x | x in Times(before)
          ensures !Near(x, t[m].record.checkedAt)
        {
          MatchesAreApart(t[..m], t[m], r, x);
        }
        FarApartAppend(Times(before), t[m].record.checkedAt);
      }
    }
  }

  lemma TimesApart(t: seq<Stored<Snapshot>>, r: Snapshot, i: nat, j: nat)
    requires Deduplicated(t, SnapshotClash) && i < j < |MatchingTimes(t, r)|
    ensures MatchingTimes(t, r)[i] - MatchingTimes(t, r)[j] > MARKET_SNAPSHOT_DEDUP_WINDOW_MS
  {
    hide SortBy, Filter, Times;
    FarApartTimes(t, r);
    FarApartSort(Times(Filter(t, SameKeyAs(r))));
    TimesNewestFirst(t, r);
  }

  /** The records come in time order, none older than a stored row. */
  ghost predicate InTimeOrder(t: seq<Stored<Snapshot>>, rs: seq<Snapshot>) {
    && (forall i, j :: 0 <= i < j < |rs| ==> rs[i].checkedAt <= rs[j].checkedAt)
    && (forall i, k :: 0 <= i < |t| && 0 <= k < |rs| ==> t[i].record.checkedAt <= rs[k].checkedAt)
  }

  lemma NewestRecordAgrees(t: seq<Stored<Snapshot>>, r: Snapshot)
    requires forall i :: 0 <= i < |t| ==> t[i].record.checkedAt <= r.checkedAt
    ensures HasNearDuplicateSnapshot(t, r) == Clashing(t, r, SnapshotClash)
  {
    hide SortBy, Filter, Times, MatchingTimes;
    BoundedScanAgrees(t, r);
    var times := MatchingTimes(t, r);
    if |times| > 10 {
      MatchingTimeIsStored(t, r, 9);
    }
  }

  lemma MatchingTimeIsStored(t: seq<Stored<Snapshot>>, r: Snapshot, k: nat)
    requires k < |MatchingTimes(t, r)|
    ensures exists i :: 0 <= i < |t| && t[i].record.checkedAt == MatchingTimes(t, r)[k]
  {
    hide SortBy, Filter, Times;
    var rows := Filter(t, SameKeyAs(r));
    var x := MatchingTimes(t, r)[k];
    SortMembers(Times(rows), Newest);
    assert x in MatchingTimes(t, r);
    TimesHold(rows, x);
    var i :| 0 <= i < |rows| && rows[i].record.checkedAt == x;
    FilterMembers(t, SameKeyAs(r));
    assert rows[i] in t;
    var j :| 0 <= j < |t| && t[j] == rows[i];
  }

  lemma TableNotNewer(t: seq<Stored<Snapshot>>, rs: seq<Snapshot>, r: Snapshot)
    requires InTimeOrder(t, rs + [r])
    ensures forall i :: 0 <= i < |InsertSnapshots(t, rs).table| ==>
              InsertSnapshots(t, rs).table[i].record.checkedAt <= r.checkedAt
  {
    hide InsertAll;
    var table := InsertSnapshots(t, rs).table;
    RowsHaveOrigin(t, rs, SnapshotOk, SnapshotClash);
    assert (rs + [r])[|rs|] == r;
    forall i | 0 <= i < |table|
      ensures table[i].record.checkedAt <= r.checkedAt
    {
      assert table[i] in table;
      if table[i] in t {
        var j :| 0 <= j < |t| && t[j] == table[i];
      } else {
        var j :| 0 <= j < |rs| && rs[j] == table[i].record;
        assert (rs + [r])[j] == rs[j];
      }
    }
  }

  /** Both stores do the same on every batch whose records come in time order: same table, same counts. */
  lemma {:induction false} StoresAgreeInTimeOrder(t: seq<Stored<Snapshot>>, rs: seq<Snapshot>)
    requires InTimeOrder(t, rs)
    ensures InsertAllBounded(t, rs) == InsertSnapshots(t, rs)
  {
    hide HasNearDuplicateSnapshot, Clashing, SnapshotOk;
    if rs != [] {
      var m := |rs| - 1;
      assert rs == rs[..m] + [rs[m]];
      StoresAgreeInTimeOrder(t, rs[..m]);
      TableNotNewer(t, rs[..m], rs[m]);
      NewestRecordAgrees(InsertSnapshots(t, rs[..m]).table, rs[m]);
    }
  }

  /** The outcomes of a run of batches, each inserted into the table that the one before it left. */
  function RunFull(t: seq<Stored<Snapshot>>, batches: seq<seq<Snapshot>>): seq<Outcome<Snapshot>>
    decreases |batches|
  {
    if batches == [] then []
    else
      var o := InsertSnapshots(t, batches[0]);
      [o] + RunFull(o.table, batches[1..])
  }

  function RunBounded(t: seq<Stored<Snapshot>>, batches: seq<seq<Snapshot>>): seq<Outcome<Snapshot>>
    decreases |batches|
  {
    if batches == [] then []
    else
      var o := InsertAllBounded(t, batches[0]);
      [o] + RunBounded(o.table, batches[1..])
  }

  function Flattened(batches: seq<seq<Snapshot>>): seq<Snapshot> {
    if batches == [] then [] else batches[0] + Flattened(batches[1..])
  }

  lemma OrderContinues(t: seq<Stored<Snapshot>>, a: seq<Snapshot>, b: seq<Snapshot>)
    requires InTimeOrder(t, a + b)
    ensures InTimeOrder(t, a) && InTimeOrder(InsertSnapshots(t, a).table, b)
  {
    hide InsertAll;
    forall i, j | 0 <= i < j < |a|
      ensures a[i].checkedAt <= a[j].checkedAt
    {
      assert (a + b)[i] == a[i] && (a + b)[j] == a[j];
    }
    forall i, k | 0 <= i < |t| && 0 <= k < |a|
      ensures t[i].record.checkedAt <= a[k].checkedAt
    {
      assert (a + b)[k] == a[k];
    }
    forall i, j | 0 <= i < j < |b|
      ensures b[i].checkedAt <= b[j].checkedAt
    {
      assert (a + b)[|a| + i] == b[i] && (a + b)[|a| + j] == b[j];
    }
    forall k | 0 <= k < |b|
      ensures forall i :: 0 <= i < |InsertSnapshots(t, a).table| ==>
                InsertSnapshots(t, a).table[i].record.checkedAt <= b[k].checkedAt
    {
      OrderOfOne(t, a, b, k);
      TableNotNewer(t, a, b[k]);
    }
  }

  lemma OrderOfOne(t: seq<Stored<Snapshot>>, a: seq<Snapshot>, b: seq<Snapshot>, k: nat)
    requires k < |b| && InTimeOrder(t, a + b)
    ensures InTimeOrder(t, a + [b[k]])
  {
    var whole, part := a + b, a + [b[k]];
    assert forall i :: 0 <= i < |part| ==> part[i] == whole[if i < |a| then i else |a| + k];
  }

  /** Over every run of batches whose records arrive in time order, the bounded scan costs nothing: both stores
      report the same counts for every batch and end with the same table. */
  lemma {:induction false} StoresAgreeOnRuns(t: seq<Stored<Snapshot>>, batches: seq<seq<Snapshot>>)
    requires InTimeOrder(t, Flattened(batches))
    ensures RunBounded(t, batches) == RunFull(t, batches)
    decreases |batches|
  {
    hide InTimeOrder, InsertAll, InsertAllBounded;
    if batches != [] {
      OrderContinues(t, batches[0], Flattened(batches[1..]));
      StoresAgreeInTimeOrder(t, batches[0]);
      StoresAgreeOnRuns(InsertSnapshots(t, batches[0]).table, batches[1..]);
    }
  }

  // ----- which records are stored

  /** A stored candle for the same symbol, interval, opening time and provider. */
  ghost predicate HasCandle(t: seq<Stored<CandleRecord>>, r: CandleRecord) {
    exists k :: 0 <= k < |t| && t[k].record.symbol == r.symbol && t[k].record.interval == r.interval
                && t[k].record.openTime == r.openTime && t[k].record.provider == r.provider
  }

  /** A stored snapshot of the same provider, source, symbol, market and hash, at most a minute away. */
  ghost predicate HasSnapshot(t: seq<Stored<Snapshot>>, r: Snapshot) {
    exists k :: 0 <= k < |t| && t[k].record.provider == r.provider && t[k].record.sourceType == r.sourceType
                && t[k].record.symbol == r.symbol && t[k].record.marketId.GetOr("") == r.marketId.GetOr("")
                && t[k].record.rawHash == r.rawHash && -60000 <= t[k].record.checkedAt - r.checkedAt <= 60000
  }

  /** Sources that are refused: an unknown type or provider, and a mock provider with data that is not mock. */
  predicate Refused(provider: Provider, sourceType: SourceType) {
    sourceType.UnknownSource? || provider.UnknownProvider? || (provider.MockProvider? && !sourceType.Mock?)
  }

  lemma CandleIsThere(t: seq<Stored<CandleRecord>>, r: CandleRecord)
    ensures HasCandle(t, r) <==> Clashing(t, r, CandleClash)
  {
    if Clashing(t, r, CandleClash) {
      var i :| 0 <= i < |t| && CandleClash(t[i].record, r);
    }
    if HasCandle(t, r) {
      var k :| 0 <= k < |t| && t[k].record.symbol == r.symbol && t[k].record.interval == r.interval
               && t[k].record.openTime == r.openTime && t[k].record.provider == r.provider;
      assert CandleClash(t[k].record, r);
    }
  }

  lemma SnapshotIsThere(t: seq<Stored<Snapshot>>, r: Snapshot)
    ensures HasSnapshot(t, r) <==> Clashing(t, r, SnapshotClash)
  {
    if Clashing(t, r, SnapshotClash) {
      var i :| 0 <= i < |t| && SnapshotClash(t[i].record, r);
    }
    if HasSnapshot(t, r) {
      var k :| 0 <= k < |t| && t[k].record.provider == r.provider && t[k].record.sourceType == r.sourceType
               && t[k].record.symbol == r.symbol && t[k].record.marketId.GetOr("") == r.marketId.GetOr("")
               && t[k].record.rawHash == r.rawHash && -60000 <= t[k].record.checkedAt - r.checkedAt <= 60000;
      assert SnapshotClash(t[k].record, r);
    }
  }

  /** One candle: refused sources throw; a candle whose key is stored is skipped; any other is appended with the next
      id. */
  lemma OneCandleExactly(t: seq<Stored<CandleRecord>>, r: CandleRecord)
    ensures InsertCandles(t, [r]) ==
              if Refused(r.provider, r.sourceType) then Outcome(t, 0, 0, true)
              else if HasCandle(t, r) then Outcome(t, 0, 1, false)
              else Outcome(t + [Stored(r, |t| + 1)], 1, 0, false)
  {
    hide InsertAll, Clashing, HasCandle, HasSnapshot;
    CandleIsThere(t, r);
    InsertNothing(t, CandleOk, CandleClash);
    InsertAppend(t, [], r, CandleOk, CandleClash);
    assert [] + [r] == [r];
  }

  /** One snapshot: the same, with the snapshot's own key and window. */
  lemma OneSnapshotExactly(t: seq<Stored<Snapshot>>, r: Snapshot)
    ensures InsertSnapshots(t, [r]) ==
              if Refused(r.provider, r.sourceType) then Outcome(t, 0, 0, true)
              else if HasSnapshot(t, r) then Outcome(t, 0, 1, false)
              else Outcome(t + [Stored(r, |t| + 1)], 1, 0, false)
  {
    hide InsertAll, Clashing, HasCandle, HasSnapshot;
    SnapshotIsThere(t, r);
    InsertNothing(t, SnapshotOk, SnapshotClash);
    InsertAppend(t, [], r, SnapshotOk, SnapshotClash);
    assert [] + [r] == [r];
  }

  /** After a batch that did not throw, every record of it is stored under its own key; and a batch throws exactly when
      one of its records has a refused source. */
  lemma EveryRecordIsStored(snapshots: seq<Stored<Snapshot>>, rs: seq<Snapshot>,
                            candles: seq<Stored<CandleRecord>>, cs: seq<CandleRecord>)
    ensures var o := InsertSnapshots(snapshots, rs);
            && (o.threw <==> exists k :: 0 <= k < |rs| && Refused(rs[k].provider, rs[k].sourceType))
            && (!o.threw ==> forall k :: 0 <= k < |rs| ==> HasSnapshot(o.table, rs[k]))
    ensures var o := InsertCandles(candles, cs);
            && (o.threw <==> exists k :: 0 <= k < |cs| && Refused(cs[k].provider, cs[k].sourceType))
            && (!o.threw ==> forall k :: 0 <= k < |cs| ==> HasCandle(o.table, cs[k]))
  {
    hide InsertAll;
    InsertKeepsTable(snapshots, rs, SnapshotOk, SnapshotClash);
    InsertKeepsTable(candles, cs, CandleOk, CandleClash);
    assert forall k :: 0 <= k < |rs| ==> (SnapshotOk(rs[k]) <==> !Refused(rs[k].provider, rs[k].sourceType));
    assert forall k :: 0 <= k < |cs| ==> (CandleOk(cs[k]) <==> !Refused(cs[k].provider, cs[k].sourceType));
    var o, q := InsertSnapshots(snapshots, rs), InsertCandles(candles, cs);
    forall k | 0 <= k < |rs| && !o.threw
      ensures HasSnapshot(o.table, rs[k])
    {
      InsertedClashes(snapshots, rs, k, SnapshotOk, SnapshotClash);
      SnapshotIsThere(o.table, rs[k]);
    }
    forall k | 0 <= k < |cs| && !q.threw
      ensures HasCandle(q.table, cs[k])
    {
      InsertedClashes(candles, cs, k, CandleOk, CandleClash);
      CandleIsThere(q.table, cs[k]);
    }
  }

  /** What a run does: a batch goes into its own table, and a longer run goes on from where the shorter one ended. */
  lemma {:induction false} RunsContinue(d: Disk, ops: seq<Operation>, more: seq<Operation>,
                                        rs: seq<Snapshot>, cs: seq<CandleRecord>)
    ensures PerformAll(d, ops + more) == PerformAll(PerformAll(d, ops), more)
    ensures PerformAll(d, [PutSnapshots(rs)]) == d.(snapshots := InsertSnapshots(d.snapshots, rs).table)
    ensures PerformAll(d, [PutCandles(cs)]) == d.(candles := InsertCandles(d.candles, cs).table)
  {
    assert [PutSnapshots(rs)][..0] == [] && [PutCandles(cs)][..0] == [];
    if more == [] {
      assert ops + more == ops;
    } else {
      hide Perform;
      RunsContinue(d, ops, more[..|more| - 1], rs, cs);
      assert (ops + more)[..|ops + more| - 1] == ops + more[..|more| - 1];
    }
  }
}
