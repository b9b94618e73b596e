/** The local log of signal observations: each console snapshot resolves pending entries, may add one entry at
    the front, and the list is cut to a hundred. Times are milliseconds; None is a missing or unreadable time. */
module SignalObservations {
  import opened Options
  import opened Rounding
  import opened Sorting

  datatype Status = Pending | Hit | Miss | NoSignal | Invalidated

  datatype Direction = LONG | SHORT | NO_SIGNAL

  datatype Horizon = FiveMinutes | TenMinutes

  datatype Profile = Balanced | Conservative | Aggressive

  /** An expected resolve time: absent, text that is no date, or a time. */
  datatype ResolveTime = NoTime | BadTime | At(ms: int)

  /** What makes two entries comparable. */
  datatype Stream = Stream(symbol: int, horizon: Horizon, sourceMode: int, profile: Profile)

  datatype Observation = Observation(
    stream: Stream,
    createdAt: Option<int>,
    direction: Direction,
    score: real,
    entryPrice: Option<real>,
    expectedResolveAt: ResolveTime,
    status: Status,
    resolvePrice: Option<real>,
    resolvedAt: Option<int>,
    movePct: Option<real>)

  datatype Candidate = Candidate(
    stream: Stream,
    createdAt: Option<int>,
    direction: Direction,
    score: real,
    entryPrice: Option<real>,
    hasEntryCandle: bool,
    expectedResolveAt: ResolveTime,
    canObserve: bool)

  datatype Latest = Latest(timeMs: Option<int>, close: real)

  /** A console response: its stream (the profile plays no part in resolving), the last recent candle, the time
      it was made and the candidate. */
  datatype Payload = Payload(
    symbol: int, horizon: Horizon, sourceMode: int, latest: Option<Latest>, generatedAt: Option<int>,
    candidate: Candidate)

  const MAX_STORED_OBSERVATIONS := 100

  function CreateSignalObservation(p: Payload): Observation {
    var c := p.candidate;
    var status :=
      if c.direction.NO_SIGNAL? then NoSignal
      else if c.canObserve && c.entryPrice.Some? && c.hasEntryCandle && !c.expectedResolveAt.NoTime? then Pending
      else Invalidated;
    Observation(c.stream, c.createdAt, c.direction, c.score, c.entryPrice, c.expectedResolveAt, status, None, None,
                None)
  }

  function Invalidate(o: Observation, at: Option<int>): Observation { o.(status := Invalidated, resolvedAt := at) }

  function IsHit(o: Observation, close: real): bool {
    o.entryPrice.Some? &&
    match o.direction
    case LONG => close > o.entryPrice.value
    case SHORT => close < o.entryPrice.value
    case NO_SIGNAL => false
  }

  function ResolveOne(o: Observation, p: Payload): Observation {
    if !o.status.Pending? then o
    else if o.stream.symbol != p.symbol || o.stream.horizon != p.horizon || o.stream.sourceMode != p.sourceMode then o
    else if o.expectedResolveAt.NoTime? || o.entryPrice.None? || o.entryPrice.value == 0.0 then
      Invalidate(o, p.generatedAt)
    else if o.expectedResolveAt.BadTime? then Invalidate(o, p.generatedAt)
    else if p.latest.None? || p.latest.value.timeMs.None? then
      if p.generatedAt.Some? && p.generatedAt.value >= o.expectedResolveAt.ms then Invalidate(o, p.generatedAt) else o
    else if p.latest.value.timeMs.value < o.expectedResolveAt.ms then o
    else
      var close := p.latest.value.close;
      o.(status := if IsHit(o, close) then Hit else Miss,
         resolvePrice := Some(close),
         resolvedAt := p.latest.value.timeMs,
         movePct := Some(Round4((close - o.entryPrice.value) / o.entryPrice.value)))
  }

  function ResolvePending(os: seq<Observation>, p: Payload): (r: seq<Observation>)
    ensures |r| == |os| && forall i :: 0 <= i < |os| ==> r[i] == ResolveOne(os[i], p)
  {
    if os == [] then [] else [ResolveOne(os[0], p)] + ResolvePending(os[1..], p)
  }

  /** `find`: the first entry of the stream, which is the newest. */
  function LatestComparable(os: seq<Observation>, s: Stream): Option<Observation> {
    if os == [] then None else if os[0].stream == s then Some(os[0]) else LatestComparable(os[1..], s)
  }

  function CooldownMs(h: Horizon): int { if h.FiveMinutes? then 120000 else 180000 }

  predicate CooledDown(next: Observation, before: Observation) {
    next.createdAt.Some? && before.createdAt.Some?
    && next.createdAt.value - before.createdAt.value >= CooldownMs(next.stream.horizon)
  }

  predicate Moved(next: Observation, before: Observation) { Abs(next.score - before.score) >= 0.08 }

  function ShouldRecord(os: seq<Observation>, next: Observation): bool {
    match LatestComparable(os, next.stream)
    case None => true
    case Some(before) =>
      if before.direction != next.direction then true
      else if CooledDown(next, before) then Moved(next, before) || !next.status.NoSignal?
      else if next.status.NoSignal? then false
      else Moved(next, before)
  }

  function Prune(os: seq<Observation>): seq<Observation> {
    if |os| <= MAX_STORED_OBSERVATIONS then os else os[..MAX_STORED_OBSERVATIONS]
  }

  function Merge(os: seq<Observation>, p: Payload): seq<Observation> {
    var resolved := ResolvePending(os, p);
    var next := CreateSignalObservation(p);
    Prune(if ShouldRecord(resolved, next) then [next] + resolved else resolved)
  }

  function MergeAll(os: seq<Observation>, ps: seq<Payload>): seq<Observation> {
    if ps == [] then os else Merge(MergeAll(os, ps[..|ps| - 1]), ps[|ps| - 1])
  }

  // ----- the invariant of the log

  /** The status fits the rest of the entry: NO_SIGNAL entries and only they are no_signal; a hit or miss was
      resolved at or after its resolve time at a price that decides between the two; a pending entry can still
      be resolved or invalidated. */
  predicate EntryOk(o: Observation) {
    && (o.status.NoSignal? <==> o.direction.NO_SIGNAL?)
    && (o.status.Hit? || o.status.Miss? ==>
          && o.expectedResolveAt.At? && o.resolvedAt.Some? && o.resolvedAt.value >= o.expectedResolveAt.ms
          && o.resolvePrice.Some? && o.entryPrice.Some? && o.entryPrice.value != 0.0
          && (o.status.Hit? <==> if o.direction.LONG? then o.resolvePrice.value > o.entryPrice.value
                                 else o.resolvePrice.value < o.entryPrice.value))
    && (o.status.Pending? ==> o.resolvedAt.None? && o.entryPrice.Some? && !o.expectedResolveAt.NoTime?)
  }

  /** Two successive entries of a stream: of equal direction, they are two minutes apart on the five-minute horizon and
      three on the other, or their scores differ by 0.08; and NO_SIGNAL both. */
  predicate Separated(next: Observation, before: Observation) {
    next.direction == before.direction ==>
      var apart := next.createdAt.Some? && before.createdAt.Some?
                   && next.createdAt.value - before.createdAt.value
                      >= (if next.stream.horizon.FiveMinutes? then 120000 else 180000);
      var moved := next.score - before.score >= 0.08 || before.score - next.score >= 0.08;
      if next.direction.NO_SIGNAL? then apart && moved else apart || moved
  }

  /** Each entry is separated from the entry of its stream that came before it. */
  predicate AllSeparated(os: seq<Observation>) {
    os == [] ||
    (AllSeparated(os[1..])
     && match LatestComparable(os[1..], os[0].stream) case None => true case Some(before) => Separated(os[0], before))
  }

  ghost predicate LogOk(os: seq<Observation>) {
    |os| <= MAX_STORED_OBSERVATIONS && AllSeparated(os) && forall o :: o in os ==> EntryOk(o)
  }

  /** Resolving changes nothing that comparison looks at. */
  predicate SameSkeleton(a: Observation, b: Observation) {
    a.stream == b.stream && a.createdAt == b.createdAt && a.direction == b.direction && a.score == b.score
  }

  lemma ResolvedEntry(o: Observation, p: Payload)
    ensures SameSkeleton(ResolveOne(o, p), o) && (EntryOk(o) ==> EntryOk(ResolveOne(o, p)))
    ensures !o.status.Pending? ==> ResolveOne(o, p) == o
  {
  }

  lemma {:induction false} ComparableResolves(os: seq<Observation>, p: Payload, s: Stream)
    ensures var before, after := LatestComparable(os, s), LatestComparable(ResolvePending(os, p), s);
            match before case None => after.None? case Some(b) => after.Some? && SameSkeleton(after.value, b)
  {
    if os != [] {
      ResolvedEntry(os[0], p);
      ComparableResolves(os[1..], p, s);
    }
  }

  lemma {:induction false} SeparationResolves(os: seq<Observation>, p: Payload)
    requires AllSeparated(os)
    ensures AllSeparated(ResolvePending(os, p))
  {
    if os != [] {
      SeparationResolves(os[1..], p);
      ResolvedEntry(os[0], p);
      ComparableResolves(os[1..], p, os[0].stream);
    }
  }

  lemma {:induction false} ComparableInPrefix(os: seq<Observation>, k: nat, s: Stream)
    requires k <= |os|
    ensures LatestComparable(os[..k], s).Some? ==> LatestComparable(os[..k], s) == LatestComparable(os, s)
  {
    if k > 0 && os[0].stream != s {
      assert os[..k][1..] == os[1..][..k - 1];
      ComparableInPrefix(os[1..], k - 1, s);
    }
  }

  lemma {:induction false} SeparationOfPrefix(os: seq<Observation>, k: nat)
    requires AllSeparated(os) && k <= |os|
    ensures AllSeparated(os[..k])
  {
    if k > 0 {
      assert os[..k][1..] == os[1..][..k - 1];
      SeparationOfPrefix(os[1..], k - 1);
      ComparableInPrefix(os[1..], k - 1, os[0].stream);
    }
  }

  lemma RecordedIsSeparated(os: seq<Observation>, next: Observation)
    requires AllSeparated(os) && ShouldRecord(os, next) && EntryOk(next)
    ensures AllSeparated([next] + os)
  {
    assert ([next] + os)[1..] == os;
  }

  /** Every merge keeps the invariant of the log. */
  lemma MergeKeepsLog(os: seq<Observation>, p: Payload)
    requires LogOk(os)
    ensures LogOk(Merge(os, p))
  {
    hide AllSeparated, ShouldRecord, EntryOk;
    var resolved := ResolvePending(os, p);
    var next := CreateSignalObservation(p);
    SeparationResolves(os, p);
    NewEntryOk(p);
    forall o | o in resolved
      ensures EntryOk(o)
    {
      var i :| 0 <= i < |os| && resolved[i] == o;
      ResolvedEntry(os[i], p);
    }
    var grown := if ShouldRecord(resolved, next) then [next] + resolved else resolved;
    if ShouldRecord(resolved, next) {
      RecordedIsSeparated(resolved, next);
    }
    if |grown| > MAX_STORED_OBSERVATIONS {
      SeparationOfPrefix(grown, MAX_STORED_OBSERVATIONS);
    }
  }

  lemma NewEntryOk(p: Payload)
    ensures EntryOk(CreateSignalObservation(p))
  {
  }

  /** The log that any sequence of snapshots builds from an empty one, or from any log that is in order. */
  lemma {:induction false} LogStaysInOrder(os: seq<Observation>, ps: seq<Payload>)
    requires LogOk(os)
    ensures LogOk(MergeAll(os, ps))
  {
    hide LogOk;
    if ps != [] {
      LogStaysInOrder(os, ps[..|ps| - 1]);
      MergeKeepsLog(MergeAll(os, ps[..|ps| - 1]), ps[|ps| - 1]);
    }
  }

  // ----- entries are final

  function Shift(os: seq<Observation>, p: Payload): (k: nat)
    ensures k <= 1
  {
    if ShouldRecord(ResolvePending(os, p), CreateSignalObservation(p)) then 1 else 0
  }

  /** A merge moves every entry back by zero or one place and drops only what no longer fits; an entry that is
      not pending is not changed. */
  lemma MergeMoves(os: seq<Observation>, p: Payload, i: nat)
    requires i < |os|
    ensures var j := i + Shift(os, p);
            && (j < |Merge(os, p)| <==> j < MAX_STORED_OBSERVATIONS)
            && (j < |Merge(os, p)| ==> Merge(os, p)[j] == ResolveOne(os[i], p))
            && (j < |Merge(os, p)| && !os[i].status.Pending? ==> Merge(os, p)[j] == os[i])
  {
    hide ShouldRecord, CreateSignalObservation;
  }

  /** Where entry `i` stands after a sequence of merges; it may have left the list. */
  function Position(os: seq<Observation>, ps: seq<Payload>, i: nat): nat {
    if ps == [] then i
    else
      var before := Position(os, ps[..|ps| - 1], i);
      before + Shift(MergeAll(os, ps[..|ps| - 1]), ps[|ps| - 1])
  }

  /** A settled entry stays as it is for as long as the log holds it, whatever snapshots follow. */
  lemma {:induction false} SettledStays(os: seq<Observation>, ps: seq<Payload>, i: nat)
    requires |os| <= MAX_STORED_OBSERVATIONS && i < |os| && !os[i].status.Pending?
    ensures var j := Position(os, ps, i);
            && (j < |MergeAll(os, ps)| <==> j < MAX_STORED_OBSERVATIONS)
            && (j < |MergeAll(os, ps)| ==> MergeAll(os, ps)[j] == os[i])
  {
    if ps != [] {
      hide Merge, Shift;
      var before := MergeAll(os, ps[..|ps| - 1]);
      SettledStays(os, ps[..|ps| - 1], i);
      var j := Position(os, ps[..|ps| - 1], i);
      if j < |before| {
        MergeMoves(before, ps[|ps| - 1], j);
      } else {
        MergeFits(before, ps[|ps| - 1]);
      }
    }
  }

  lemma MergeFits(os: seq<Observation>, p: Payload)
    ensures |Merge(os, p)| <= MAX_STORED_OBSERVATIONS
  {
    hide ShouldRecord, CreateSignalObservation, ResolvePending;
  }

  // ----- the summary

  datatype Summary = Summary(directional: nat, resolved: nat, pending: nat, invalidated: nat, hits: nat)

  function CountOne(o: Observation): Summary {
    if o.direction.NO_SIGNAL? then Summary(0, 0, 0, 0, 0)
    else
      Summary(1,
              if o.status.Hit? || o.status.Miss? then 1 else 0,
              if o.status.Pending? then 1 else 0,
              if o.status.Invalidated? then 1 else 0,
              if o.status.Hit? then 1 else 0)
  }

  function Plus(a: Summary, b: Summary): Summary {
    Summary(a.directional + b.directional, a.resolved + b.resolved, a.pending + b.pending,
            a.invalidated + b.invalidated, a.hits + b.hits)
  }

  /** `bucketSummary` of the entries that pass a filter. */
  function BucketSummary(os: seq<Observation>, keep: Observation -> bool): Summary {
    if os == [] then ZERO
    else Plus(BucketSummary(os[..|os| - 1], keep), Counted(os[|os| - 1], keep))
  }

  function Counted(o: Observation, keep: Observation -> bool): Summary {
    if keep(o) then CountOne(o) else ZERO
  }

  function All(o: Observation): bool { true }

  function OfHorizon(h: Horizon): Observation -> bool { (o: Observation) => o.stream.horizon == h }

  function OfDirection(d: Direction): Observation -> bool { (o: Observation) => o.direction == d }

  function OfProfile(p: Profile): Observation -> bool { (o: Observation) => o.stream.profile == p }

  /** Every directional entry is resolved, pending or invalidated, in any bucket of a log in order. */
  lemma {:induction false} BucketBalances(os: seq<Observation>, keep: Observation -> bool)
    requires forall o :: o in os ==> EntryOk(o)
    ensures var s := BucketSummary(os, keep);
            s.pending + s.resolved + s.invalidated == s.directional && s.hits <= s.resolved
  {
    if os != [] {
      assert os[|os| - 1] in os;
      BucketBalances(os[..|os| - 1], keep);
    }
  }

  predicate SplitsAt(o: Observation, whole: Observation -> bool, a: Observation -> bool, b: Observation -> bool) {
    Counted(o, whole) == Plus(Counted(o, a), Counted(o, b))
  }

  lemma PlusSwaps(a: Summary, b: Summary, x: Summary, y: Summary)
    ensures Plus(Plus(a, b), Plus(x, y)) == Plus(Plus(a, x), Plus(b, y))
  {
  }

  /** Two filters that split every entry's count split the summary. */
  lemma {:induction false} BucketsSplit(os: seq<Observation>, whole: Observation -> bool, a: Observation -> bool,
                                        b: Observation -> bool)
    requires forall o :: SplitsAt(o, whole, a, b)
    ensures BucketSummary(os, whole) == Plus(BucketSummary(os, a), BucketSummary(os, b))
  {
    hide Plus, Counted;
    PlusZero(ZERO);
    if os != [] {
      var before, o := os[..|os| - 1], os[|os| - 1];
      BucketsSplit(before, whole, a, b);
      assert SplitsAt(o, whole, a, b);
      PlusSwaps(BucketSummary(before, a), BucketSummary(before, b), Counted(o, a), Counted(o, b));
    }
  }

  function NotAggressive(o: Observation): bool { !o.stream.profile.Aggressive? }

  const ZERO := Summary(0, 0, 0, 0, 0)

  lemma PlusZero(x: Summary)
    ensures Plus(x, ZERO) == x && Plus(ZERO, x) == x
  {
  }

  /** A filter splits an entry's count when exactly one part keeps what the whole keeps, or nothing counts. */
  lemma SplitCases(o: Observation, whole: Observation -> bool, a: Observation -> bool, b: Observation -> bool)
    requires CountOne(o) == ZERO || (whole(o) == (a(o) || b(o)) && !(a(o) && b(o)))
    ensures SplitsAt(o, whole, a, b)
  {
    hide CountOne, Plus;
    PlusZero(CountOne(o));
    PlusZero(ZERO);
  }

  lemma EntrySplits(o: Observation)
    ensures SplitsAt(o, All, OfHorizon(FiveMinutes), OfHorizon(TenMinutes))
    ensures SplitsAt(o, All, OfDirection(LONG), OfDirection(SHORT))
    ensures SplitsAt(o, NotAggressive, OfProfile(Balanced), OfProfile(Conservative))
    ensures SplitsAt(o, All, NotAggressive, OfProfile(Aggressive))
  {
    hide Plus, SplitsAt, Counted;
    SplitCases(o, All, OfHorizon(FiveMinutes), OfHorizon(TenMinutes));
    SplitCases(o, All, OfDirection(LONG), OfDirection(SHORT));
    SplitCases(o, NotAggressive, OfProfile(Balanced), OfProfile(Conservative));
    SplitCases(o, All, NotAggressive, OfProfile(Aggressive));
  }

  /** The buckets by horizon, by direction and by profile each add up to the summary of the whole log. */
  lemma BucketsAddUp(os: seq<Observation>)
    ensures var all := BucketSummary(os, All);
            && Plus(BucketSummary(os, OfHorizon(FiveMinutes)), BucketSummary(os, OfHorizon(TenMinutes))) == all
            && Plus(BucketSummary(os, OfDirection(LONG)), BucketSummary(os, OfDirection(SHORT))) == all
            && Plus(Plus(BucketSummary(os, OfProfile(Balanced)), BucketSummary(os, OfProfile(Conservative))),
                    BucketSummary(os, OfProfile(Aggressive))) == all
  {
    hide BucketSummary, Plus, SplitsAt;
    forall o: Observation
      ensures SplitsAt(o, All, OfHorizon(FiveMinutes), OfHorizon(TenMinutes))
      ensures SplitsAt(o, All, OfDirection(LONG), OfDirection(SHORT))
      ensures SplitsAt(o, NotAggressive, OfProfile(Balanced), OfProfile(Conservative))
      ensures SplitsAt(o, All, NotAggressive, OfProfile(Aggressive))
    {
      EntrySplits(o);
    }
    BucketsSplit(os, All, OfHorizon(FiveMinutes), OfHorizon(TenMinutes));
    BucketsSplit(os, All, OfDirection(LONG), OfDirection(SHORT));
    BucketsSplit(os, NotAggressive, OfProfile(Balanced), OfProfile(Conservative));
    BucketsSplit(os, All, NotAggressive, OfProfile(Aggressive));
  }

  // ----- what is recorded and what is resolved

  /** The comparable entry is the newest one of the stream: it stands in the log, with none of its stream before it;
      there is none exactly when the log has no entry of the stream. */
  lemma {:induction false} ComparableIsNewest(os: seq<Observation>, s: Stream)
    ensures match LatestComparable(os, s)
            case None => forall i :: 0 <= i < |os| ==> os[i].stream != s
            case Some(o) => exists i :: 0 <= i < |os| && os[i] == o && o.stream == s
                                        && forall j :: 0 <= j < i ==> os[j].stream != s
  {
    if os != [] && os[0].stream != s {
      ComparableIsNewest(os[1..], s);
      match LatestComparable(os[1..], s)
      case None =>
        forall i | 0 <= i < |os|
          ensures os[i].stream != s
        {
          assert i > 0 ==> os[i] == os[1..][i - 1];
        }
      case Some(o) =>
        var i :| 0 <= i < |os[1..]| && os[1..][i] == o && o.stream == s
                 && forall j :: 0 <= j < i ==> os[1..][j].stream != s;
        assert os[i + 1] == o;
        forall j | 0 <= j < i + 1
          ensures os[j].stream != s
        {
          assert j > 0 ==> os[j] == os[1..][j - 1];
        }
    }
  }

  /** The candidate becomes a new entry exactly when its stream has none yet, or when it is separated from the
      newest one; then it stands at the front, and only what no longer fits a hundred falls off. */
  lemma MergeRecords(os: seq<Observation>, p: Payload)
    ensures var resolved, next := ResolvePending(os, p), CreateSignalObservation(p);
            var before := LatestComparable(resolved, next.stream);
            var recorded := before.None? || Separated(next, before.value);
            && Merge(os, p) == Prune(if recorded then [next] + resolved else resolved)
            && (recorded ==> Merge(os, p)[0] == next)
            && (LatestComparable(os, next.stream).None? ==> recorded)
  {
    hide ResolvePending;
    var next := CreateSignalObservation(p);
    NewEntryOk(p);
    ComparableResolves(os, p, next.stream);
  }

  /** A new entry is the candidate, tracked exactly when it is directional and can be observed with an entry price, an
      entry candle and a resolve time. */
  lemma CandidateIsTracked(p: Payload)
    ensures var c, o := p.candidate, CreateSignalObservation(p);
            && o.stream == c.stream && o.direction == c.direction && o.score == c.score && o.createdAt == c.createdAt
            && o.entryPrice == c.entryPrice && o.expectedResolveAt == c.expectedResolveAt
            && (o.status.NoSignal? <==> c.direction.NO_SIGNAL?)
            && (o.status.Pending? <==>
                  && !c.direction.NO_SIGNAL? && c.canObserve && c.entryPrice.Some? && c.hasEntryCandle
                  && !c.expectedResolveAt.NoTime?)
            && (o.status.Pending? || o.status.NoSignal? || o.status.Invalidated?)
  {
  }

  /** The snapshot is of the entry's symbol, horizon and source. */
  predicate Concerns(p: Payload, o: Observation) {
    p.symbol == o.stream.symbol && p.horizon == o.stream.horizon && p.sourceMode == o.stream.sourceMode
  }

  predicate Resolvable(o: Observation) {
    o.expectedResolveAt.At? && o.entryPrice.Some? && o.entryPrice.value != 0.0
  }

  /** The snapshot shows that the entry's time has come: by its last candle, or without one by its own time. */
  predicate ShowsDue(p: Payload, at: int) {
    if p.latest.Some? && p.latest.value.timeMs.Some? then p.latest.value.timeMs.value >= at
    else p.generatedAt.Some? && p.generatedAt.value >= at
  }

  /** A pending entry is settled exactly when the snapshot concerns it and either it cannot be resolved or its time has
      come: by the last candle's close as hit or miss, on the entry's own side and with that close and time; without a
      candle, or unresolvable, as invalidated. */
  lemma ResolvesExactly(o: Observation, p: Payload)
    requires o.status.Pending?
    ensures var r := ResolveOne(o, p);
            && (!r.status.Pending? <==> Concerns(p, o) && (!Resolvable(o) || ShowsDue(p, o.expectedResolveAt.ms)))
            && (r.status.Pending? ==> r == o)
            && (r.status.Hit? || r.status.Miss? <==>
                  && Concerns(p, o) && Resolvable(o) && p.latest.Some? && p.latest.value.timeMs.Some?
                  && p.latest.value.timeMs.value >= o.expectedResolveAt.ms)
            && (r.status.Hit? || r.status.Miss? ==>
                  var close, entry := p.latest.value.close, o.entryPrice.value;
                  && r.resolvePrice == Some(close) && r.resolvedAt == p.latest.value.timeMs
                  && r.movePct == Some(Round4((close - entry) / entry))
                  && (r.status.Hit? <==> (o.direction.LONG? && close > entry) || (o.direction.SHORT? && close < entry)))
            && (r.status.Invalidated? ==> r.resolvedAt == p.generatedAt)
  {
    hide Round4;
  }

  /** After a merge, no entry is left pending that the snapshot concerns and whose time it shows to have come. */
  lemma NothingDueStaysPending(os: seq<Observation>, p: Payload, i: nat)
    requires i < |os| && os[i].status.Pending? && i + Shift(os, p) < |Merge(os, p)|
    ensures Merge(os, p)[i + Shift(os, p)].status.Pending? <==>
              !(Concerns(p, os[i]) && (!Resolvable(os[i]) || ShowsDue(p, os[i].expectedResolveAt.ms)))
  {
    hide Merge, Shift, ResolveOne;
    MergeMoves(os, p, i);
    ResolvesExactly(os[i], p);
  }

  // ----- the summary counts

  function Directional(keep: Observation -> bool): Observation -> bool {
    (o: Observation) => keep(o) && !o.direction.NO_SIGNAL?
  }

  function DirectionalWith(keep: Observation -> bool, statuses: set<Status>): Observation -> bool {
    (o: Observation) => keep(o) && !o.direction.NO_SIGNAL? && o.status in statuses
  }

  /** The summary counts the directional entries of its bucket by status. */
  lemma {:induction false} SummaryCounts(os: seq<Observation>, keep: Observation -> bool)
    ensures var s := BucketSummary(os, keep);
            && s.directional == |Filter(os, Directional(keep))|
            && s.resolved == |Filter(os, DirectionalWith(keep, {Hit, Miss}))|
            && s.pending == |Filter(os, DirectionalWith(keep, {Pending}))|
            && s.invalidated == |Filter(os, DirectionalWith(keep, {Invalidated}))|
            && s.hits == |Filter(os, DirectionalWith(keep, {Hit}))|
  {
    if os != [] {
      SummaryCounts(os[..|os| - 1], keep);
    }
  }

  /** An entry of another horizon or direction is in no count of a bucket. */
  lemma OthersAreNotCounted(os: seq<Observation>, h: Horizon, d: Direction)
    ensures (forall o :: o in os ==> o.stream.horizon != h) ==> BucketSummary(os, OfHorizon(h)).directional == 0
    ensures (forall o :: o in os ==> o.direction != d) ==> BucketSummary(os, OfDirection(d)).directional == 0
  {
    hide BucketSummary, Filter;
    SummaryCounts(os, OfHorizon(h));
    SummaryCounts(os, OfDirection(d));
    FilterMembers(os, Directional(OfHorizon(h)));
    FilterMembers(os, Directional(OfDirection(d)));
    NobodyIsNone(Filter(os, Directional(OfHorizon(h))));
    NobodyIsNone(Filter(os, Directional(OfDirection(d))));
  }

  lemma NobodyIsNone(os: seq<Observation>)
    ensures (forall o :: o !in os) ==> |os| == 0
  {
    if os != [] {
      assert os[0] in os;
    }
  }

  /** Snapshots are merged one after the other. */
  lemma MergesContinue(os: seq<Observation>, ps: seq<Payload>, p: Payload)
    ensures MergeAll(os, []) == os && MergeAll(os, ps + [p]) == Merge(MergeAll(os, ps), p)
  {
    hide Merge;
    assert (ps + [p])[..|ps|] == ps;
  }
}
