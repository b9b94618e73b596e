/** Labelling replayed fair-value signals, their theoretical profit, and the metrics over a list of results. */
module ReplayMetrics {
  import opened Options
  import opened Rounding
  import opened Sorting

  datatype Side = LONG_YES | LONG_NO | NO_SIGNAL | REJECTED

  datatype Status = NoSignal | Rejected | Pending | Unresolved | Win | Loss

  datatype Resolved = YES | NO

  datatype Comparator = ABOVE | BELOW | HIT

  datatype PricePoint = PricePoint(timeMs: int, close: real)

  datatype Signal = Signal(side: Side, expiry: Option<int>, marketProbabilityYes: Option<real>)

  /** What the closed market and the eligibility data say; None where they say nothing. */
  datatype Evidence = Evidence(
    outcome: Option<Resolved>,
    comparator: Option<Comparator>,
    threshold: Option<real>,
    history: seq<PricePoint>)

  // ----- labelling

  function MinusTime(p: PricePoint): int { -p.timeMs }

  function Until(t: int): PricePoint -> bool { (p: PricePoint) => p.timeMs <= t }

  function PriceAtOrBefore(history: seq<PricePoint>, t: int): Option<real> {
    match First(SortBy(Filter(history, Until(t)), MinusTime))
    case None => None
    case Some(p) => Some(p.close)
  }

  /** The terminal outcome: given explicitly, or rebuilt from the price at expiry when the market compares it
      with a threshold and does not touch it. */
  function TerminalOutcome(e: Evidence, expiry: int): Option<Resolved> {
    if e.outcome.Some? then e.outcome
    else if e.comparator.None? || e.comparator.value.HIT? || e.threshold.None? then None
    else
      match PriceAtOrBefore(e.history, expiry)
      case None => None
      case Some(price) =>
        if price == e.threshold.value then None
        else if e.comparator.value.ABOVE? then Some(if price > e.threshold.value then YES else NO)
        else Some(if price < e.threshold.value then YES else NO)
  }

  function Label(s: Signal, e: Evidence, now: Option<int>): Status {
    if s.side.NO_SIGNAL? then NoSignal
    else if s.side.REJECTED? then Rejected
    else if s.expiry.None? then Unresolved
    else if now.Some? && now.value < s.expiry.value then Pending
    else
      match TerminalOutcome(e, s.expiry.value)
      case None => Unresolved
      case Some(o) => if (s.side.LONG_YES? && o.YES?) || (s.side.LONG_NO? && o.NO?) then Win else Loss
  }

  datatype Result = Result(signal: Signal, status: Status, pnl: Option<real>, countedInWinRate: bool)

  function EntryPrice(s: Signal, marketNoPrice: Option<real>): Option<real> {
    match s.side
    case LONG_YES => s.marketProbabilityYes
    case LONG_NO =>
      if marketNoPrice.Some? then marketNoPrice
      else if s.marketProbabilityYes.None? then None
      else Some(Round6(1.0 - s.marketProbabilityYes.value))
    case _ => None
  }

  function BuildResult(s: Signal, status: Status, marketNoPrice: Option<real>): Result {
    var counted := status.Win? || status.Loss?;
    var entry := EntryPrice(s, marketNoPrice);
    Result(s, status,
           if entry.Some? && counted then Some(Round6((if status.Win? then 1.0 else 0.0) - entry.value)) else None,
           counted)
  }

  function OtherSide(s: Signal): Signal {
    s.(side := match s.side case LONG_YES => LONG_NO case LONG_NO => LONG_YES case other => other)
  }

  /** On the same evidence, the two sides of a market win and lose against each other: one wins exactly when the
      other loses, and otherwise they have the same status. */
  lemma OppositeSidesOppose(s: Signal, e: Evidence, now: Option<int>)
    ensures var a, b := Label(s, e, now), Label(OtherSide(s), e, now);
            && (a.Win? <==> b.Loss?) && (a.Loss? <==> b.Win?)
            && (!a.Win? && !a.Loss? ==> a == b)
  {
    hide PriceAtOrBefore;
  }

  /** The theoretical profits of the two sides cancel up to what the quoted YES and NO prices together differ from
      one, and the rounding of two numbers to six decimals. */
  lemma ProfitsCancel(s: Signal, e: Evidence, now: Option<int>, noPrice: real)
    requires s.side.LONG_YES? && s.marketProbabilityYes.Some? && (Label(s, e, now).Win? || Label(s, e, now).Loss?)
    ensures var a := BuildResult(s, Label(s, e, now), Some(noPrice)).pnl;
            var b := BuildResult(OtherSide(s), Label(OtherSide(s), e, now), Some(noPrice)).pnl;
            && a.Some? && b.Some?
            && -0.000001 <= a.value + b.value - (1.0 - s.marketProbabilityYes.value - noPrice) <= 0.000001
  {
    hide Label, Round6;
    OppositeSidesOppose(s, e, now);
    var won := if Label(s, e, now).Win? then 1.0 else 0.0;
    Round6Near(won - s.marketProbabilityYes.value);
    Round6Near((1.0 - won) - noPrice);
  }

  /** Without a quoted NO price it is taken from the YES price, and the profits cancel up to the rounding of three
      numbers. */
  lemma UnquotedProfitsCancel(s: Signal, e: Evidence, now: Option<int>)
    requires s.side.LONG_YES? && s.marketProbabilityYes.Some? && (Label(s, e, now).Win? || Label(s, e, now).Loss?)
    ensures var a := BuildResult(s, Label(s, e, now), None).pnl;
            var b := BuildResult(OtherSide(s), Label(OtherSide(s), e, now), None).pnl;
            a.Some? && b.Some? && -0.0000015 <= a.value + b.value <= 0.0000015
  {
    hide Label, Round6;
    OppositeSidesOppose(s, e, now);
    var no := Round6(1.0 - s.marketProbabilityYes.value);
    Round6Near(1.0 - s.marketProbabilityYes.value);
    ProfitsCancel(s, e, now, no);
  }

  lemma Round6Near(x: real)
    ensures -0.0000005 <= Round6(x) - x <= 0.0000005
  {
    var n := HalfAway(x * 1000000.0) as real;
    assert -0.5 <= n - x * 1000000.0 <= 0.5;
  }

  // ----- counts

  function CountWhere(rs: seq<Result>, p: Result -> bool): nat { |Filter(rs, p)| }

  function Actionable(r: Result): bool { r.signal.side.LONG_YES? || r.signal.side.LONG_NO? }

  function Counted(r: Result): bool { r.countedInWinRate }

  function HasStatus(s: Status): Result -> bool { (r: Result) => r.status == s }

  function CountedOn(s: Side): Result -> bool { (r: Result) => r.countedInWinRate && r.signal.side == s }

  function CountedWith(s: Status): Result -> bool { (r: Result) => r.countedInWinRate && r.status == s }

  /** The result was labelled and built by the functions above. */
  ghost predicate Labelled(r: Result) {
    exists e, now, noPrice :: r == BuildResult(r.signal, Label(r.signal, e, now), noPrice)
  }

  lemma LabelledShape(r: Result)
    requires Labelled(r)
    ensures (r.signal.side.NO_SIGNAL? <==> r.status.NoSignal?) && (r.signal.side.REJECTED? <==> r.status.Rejected?)
    ensures r.countedInWinRate <==> r.status.Win? || r.status.Loss?
  {
    hide TerminalOutcome;
    var e, now, noPrice :| r == BuildResult(r.signal, Label(r.signal, e, now), noPrice);
  }

  lemma NoneCounted()
    ensures forall p :: CountWhere([], p) == 0
  {
  }

  lemma CountLast(rs: seq<Result>, p: Result -> bool)
    requires rs != []
    ensures CountWhere(rs, p) == CountWhere(rs[..|rs| - 1], p) + if p(rs[|rs| - 1]) then 1 else 0
  {
  }

  /** What `computeReplayMetrics` counts adds up, for every list of labelled results. */
  lemma {:induction false} MetricsAddUp(rs: seq<Result>)
    requires forall r :: r in rs ==> Labelled(r)
    ensures CountWhere(rs, Actionable) + CountWhere(rs, HasStatus(Rejected)) + CountWhere(rs, HasStatus(NoSignal))
              == |rs|
    ensures CountWhere(rs, CountedWith(Win)) + CountWhere(rs, CountedWith(Loss)) + CountWhere(rs, HasStatus(Pending))
              + CountWhere(rs, HasStatus(Unresolved)) == CountWhere(rs, Actionable)
    ensures CountWhere(rs, CountedWith(Win)) + CountWhere(rs, CountedWith(Loss)) == CountWhere(rs, Counted)
    ensures CountWhere(rs, CountedOn(LONG_YES)) + CountWhere(rs, CountedOn(LONG_NO)) == CountWhere(rs, Counted)
    ensures CountWhere(rs, CountedWith(Win)) == CountWhere(rs, HasStatus(Win))
    ensures CountWhere(rs, CountedWith(Loss)) == CountWhere(rs, HasStatus(Loss))
  {
    hide Labelled, Filter;
    if rs == [] {
      NoneCounted();
    } else {
      var last := rs[|rs| - 1];
      assert last in rs;
      MetricsAddUp(rs[..|rs| - 1]);
      LabelledShape(last);
      CountLast(rs, Actionable);
      CountLast(rs, Counted);
      CountLast(rs, HasStatus(Rejected));
      CountLast(rs, HasStatus(NoSignal));
      CountLast(rs, HasStatus(Pending));
      CountLast(rs, HasStatus(Unresolved));
      CountLast(rs, HasStatus(Win));
      CountLast(rs, HasStatus(Loss));
      CountLast(rs, CountedWith(Win));
      CountLast(rs, CountedWith(Loss));
      CountLast(rs, CountedOn(LONG_YES));
      CountLast(rs, CountedOn(LONG_NO));
    }
  }

  /** A side or a status that no result has is not counted. */
  lemma {:induction false} AbsentIsNotCounted(rs: seq<Result>, side: Side, status: Status)
    ensures (forall r :: r in rs ==> r.signal.side != side) ==> CountWhere(rs, CountedOn(side)) == 0
    ensures (forall r :: r in rs ==> r.status != status) ==> CountWhere(rs, HasStatus(status)) == 0
  {
    hide Filter;
    if rs == [] {
      NoneCounted();
    } else {
      AbsentIsNotCounted(rs[..|rs| - 1], side, status);
      assert rs[|rs| - 1] in rs;
      CountLast(rs, CountedOn(side));
      CountLast(rs, HasStatus(status));
    }
  }

  // ----- drawdown

  /** The sum of the first `k` values. */
  function Prefix(values: seq<real>, k: nat): real
    requires k <= |values|
  {
    if k == 0 then 0.0 else Prefix(values, k - 1) + values[k - 1]
  }

  function Drop(values: seq<real>, i: nat, j: nat): real
    requires i <= j <= |values|
  {
    Prefix(values, i) - Prefix(values, j)
  }

  /** `d` is the largest drop from any running total to a later one. */
  ghost predicate IsMaxDrop(values: seq<real>, n: nat, d: real)
    requires n <= |values|
  {
    && (forall i, j :: 0 <= i <= j <= n ==> Drop(values, i, j) <= d)
    && (exists i, j :: 0 <= i <= j <= n && Drop(values, i, j) == d)
  }

  ghost predicate IsPeak(values: seq<real>, n: nat, peak: real)
    requires n <= |values|
  {
    (forall i :: 0 <= i <= n ==> Prefix(values, i) <= peak) && (exists i :: 0 <= i <= n && Prefix(values, i) == peak)
  }

  lemma PeakNext(values: seq<real>, n: nat, peak: real)
    requires n < |values| && IsPeak(values, n, peak)
    ensures IsPeak(values, n + 1, Max(peak, Prefix(values, n + 1)))
  {
    hide Prefix;
    var i :| 0 <= i <= n && Prefix(values, i) == peak;
    var next := Max(peak, Prefix(values, n + 1));
    assert Prefix(values, i) == next || Prefix(values, n + 1) == next;
  }

  lemma DropNext(values: seq<real>, n: nat, peak: real, d: real)
    requires n < |values| && IsPeak(values, n + 1, peak) && IsMaxDrop(values, n, d)
    ensures IsMaxDrop(values, n + 1, Max(d, peak - Prefix(values, n + 1)))
  {
    hide Prefix;
    var next := Max(d, peak - Prefix(values, n + 1));
    forall i, j | 0 <= i <= j <= n + 1
      ensures Drop(values, i, j) <= next
    {
      if j <= n {
        assert Drop(values, i, j) <= d;
      } else {
        assert Prefix(values, i) <= peak;
      }
    }
    var i, j :| 0 <= i <= j <= n && Drop(values, i, j) == d;
    var p :| 0 <= p <= n + 1 && Prefix(values, p) == peak;
    assert Drop(values, i, j) == next || Drop(values, p, n + 1) == next;
  }

  /** One pass over the profits finds the largest drop from a running total to a later one. */
  method MaxDrawdownFromPnl(values: seq<real>) returns (drawdown: real)
    ensures IsMaxDrop(values, |values|, drawdown)
    ensures drawdown >= 0.0
  {
    hide IsPeak, IsMaxDrop;
    var cumulative, peak := 0.0, 0.0;
    drawdown := 0.0;
    NothingYet(values);
    for k := 0 to |values|
      invariant cumulative == Prefix(values, k)
      invariant IsPeak(values, k, peak)
      invariant IsMaxDrop(values, k, drawdown) && drawdown >= 0.0
    {
      cumulative := cumulative + values[k];
      PeakNext(values, k, peak);
      peak := Max(peak, cumulative);
      DropNext(values, k, peak, drawdown);
      drawdown := Max(drawdown, peak - cumulative);
    }
  }

  lemma NothingYet(values: seq<real>)
    ensures IsPeak(values, 0, 0.0) && IsMaxDrop(values, 0, 0.0)
  {
    assert Prefix(values, 0) == 0.0 && Drop(values, 0, 0) == 0.0;
  }

  // ----- the short-window drawdown: one up for a win, one down for a loss

  function Move(s: Status): real { if s.Win? then 1.0 else if s.Loss? then -1.0 else 0.0 }

  function Moves(statuses: seq<Status>): (r: seq<real>)
    ensures |r| == |statuses| && forall k :: 0 <= k < |r| ==> r[k] == Move(statuses[k])
  {
    seq(|statuses|, k requires 0 <= k < |statuses| => Move(statuses[k]))
  }

  function Losses(statuses: seq<Status>, k: nat): nat
    requires k <= |statuses|
  {
    if k == 0 then 0 else Losses(statuses, k - 1) + (if statuses[k - 1].Loss? then 1 else 0)
  }

  lemma {:induction false} DropNeedsLosses(statuses: seq<Status>, i: nat, j: nat)
    requires i <= j <= |statuses|
    ensures Drop(Moves(statuses), i, j) <= Losses(statuses, j) as real - Losses(statuses, i) as real
    decreases j - i
  {
    if i < j {
      DropNeedsLosses(statuses, i, j - 1);
    }
  }

  /** The short-window drawdown is the largest drop of the win-loss balance, and at most the number of losses;
      there is none without results. */
  method MaxDrawdown(statuses: seq<Status>) returns (r: Option<real>)
    ensures r.None? <==> statuses == []
    ensures r.Some? ==> IsMaxDrop(Moves(statuses), |statuses|, r.value)
    ensures r.Some? ==> 0.0 <= r.value <= Losses(statuses, |statuses|) as real
  {
    hide IsPeak;
    if statuses == [] {
      return None;
    }
    var values := Moves(statuses);
    var equity, peak, drawdown := 0.0, 0.0, 0.0;
    NothingYet(values);
    for k := 0 to |statuses|
      invariant equity == Prefix(values, k)
      invariant IsPeak(values, k, peak)
      invariant IsMaxDrop(values, k, drawdown) && drawdown >= 0.0
    {
      if statuses[k].Win? {
        equity := equity + 1.0;
      } else if statuses[k].Loss? {
        equity := equity - 1.0;
      }
      PeakNext(values, k, peak);
      peak := Max(peak, equity);
      DropNext(values, k, peak, drawdown);
      drawdown := Max(drawdown, peak - equity);
    }
    var i, j :| 0 <= i <= j <= |statuses| && Drop(values, i, j) == drawdown;
    DropNeedsLosses(statuses, i, j);
    LossesGrow(statuses, j, |statuses|);
    r := Some(drawdown);
  }

  lemma {:induction false} LossesGrow(statuses: seq<Status>, i: nat, j: nat)
    requires i <= j <= |statuses|
    ensures Losses(statuses, i) <= Losses(statuses, j)
    decreases j - i
  {
    if i < j {
      LossesGrow(statuses, i, j - 1);
    }
  }

  // ----- who wins

  /** A latest price point at or before `t`. */
  ghost predicate LatestPoint(history: seq<PricePoint>, p: PricePoint, t: int) {
    p in history && p.timeMs <= t && forall q :: q in history && q.timeMs <= t ==> q.timeMs <= p.timeMs
  }

  lemma PriceIsLatest(history: seq<PricePoint>, t: int)
    ensures match PriceAtOrBefore(history, t)
            case None => forall p :: p in history ==> p.timeMs > t
            case Some(price) => exists p :: LatestPoint(history, p, t) && p.close == price
  {
    hide SortBy, Filter;
    FirstIsLeast(history, Until(t), MinusTime);
    match First(SortBy(Filter(history, Until(t)), MinusTime))
    case None =>
      assert forall p :: p in history && p.timeMs <= t ==> Until(t)(p);
    case Some(p) =>
      forall q | q in history && q.timeMs <= t
        ensures q.timeMs <= p.timeMs
      {
        assert Until(t)(q);
      }
      assert LatestPoint(history, p, t);
  }

  /** The price is on the side of the threshold that the market's comparator calls YES. */
  predicate SaysYes(c: Comparator, price: real, threshold: real) {
    if c.ABOVE? then price > threshold else price < threshold
  }

  /** A signal on a market that must end above or below its threshold, with no outcome given: at expiry it wins only
      with a latest price on its side of the threshold, loses only with one on the other side, and is unresolved
      when the price is missing or at the threshold. */
  lemma ThresholdIsSettledByThePrice(s: Signal, e: Evidence, now: Option<int>)
    requires (s.side.LONG_YES? || s.side.LONG_NO?) && s.expiry.Some? && (now.Some? ==> s.expiry.value <= now.value)
    requires e.outcome.None? && e.comparator.Some? && !e.comparator.value.HIT? && e.threshold.Some?
    ensures var c, threshold := e.comparator.value, e.threshold.value;
            match Label(s, e, now)
            case Win => exists p :: LatestPoint(e.history, p, s.expiry.value) && p.close != threshold
                                    && (SaysYes(c, p.close, threshold) <==> s.side.LONG_YES?)
            case Loss => exists p :: LatestPoint(e.history, p, s.expiry.value) && p.close != threshold
                                     && (SaysYes(c, p.close, threshold) <==> s.side.LONG_NO?)
            case Unresolved =>
              || (forall p :: p in e.history ==> p.timeMs > s.expiry.value)
              || exists p :: LatestPoint(e.history, p, s.expiry.value) && p.close == threshold
            case _ => false
  {
    hide PriceAtOrBefore, LatestPoint;
    PriceIsLatest(e.history, s.expiry.value);
  }

  /** With an entry price between 0 and 1, no win costs and no loss pays. */
  lemma ProfitSign(s: Signal, status: Status, marketNoPrice: Option<real>)
    requires EntryPrice(s, marketNoPrice).Some? && 0.0 <= EntryPrice(s, marketNoPrice).value <= 1.0
    requires status.Win? || status.Loss?
    ensures var pnl := BuildResult(s, status, marketNoPrice).pnl;
            pnl.Some? && (status.Win? ==> 0.0 <= pnl.value <= 1.0) && (status.Loss? ==> -1.0 <= pnl.value <= 0.0)
  {
    hide EntryPrice;
    var entry := EntryPrice(s, marketNoPrice).value;
    Round6Between(if status.Win? then 1.0 - entry else 0.0 - entry, status.Win?);
  }

  lemma Round6Between(x: real, positive: bool)
    requires if positive then 0.0 <= x <= 1.0 else -1.0 <= x <= 0.0
    ensures if positive then 0.0 <= Round6(x) <= 1.0 else -1.0 <= Round6(x) <= 0.0
  {
    HalfAwayFixes(0);
    HalfAwayFixes(1000000);
    HalfAwayFixes(-1000000);
    if positive {
      HalfAwayMonotone(0.0, x * 1000000.0);
      HalfAwayMonotone(x * 1000000.0, 1000000.0);
    } else {
      HalfAwayMonotone(-1000000.0, x * 1000000.0);
      HalfAwayMonotone(x * 1000000.0, 0.0);
    }
  }

  // ----- labels by stage

  /** Before any evidence: signals without a side, with an unreadable expiry or before their expiry. */
  lemma LabelStages(s: Signal, e: Evidence, now: Option<int>)
    ensures s.side.NO_SIGNAL? ==> Label(s, e, now) == NoSignal
    ensures s.side.REJECTED? ==> Label(s, e, now) == Rejected
    ensures Actionable(BuildResult(s, Pending, None)) && s.expiry.None? ==> Label(s, e, now) == Unresolved
    ensures Actionable(BuildResult(s, Pending, None)) && s.expiry.Some? && now.Some? ==>
              (Label(s, e, now) == Pending <==> now.value < s.expiry.value)
  {
    hide TerminalOutcome;
  }

  /** A closed market's own outcome settles an expired signal, whatever comparator, threshold and prices say: YES
      wins for LONG_YES, NO for LONG_NO. */
  lemma GivenOutcomeSettles(s: Signal, e: Evidence, now: Option<int>)
    requires (s.side.LONG_YES? || s.side.LONG_NO?) && s.expiry.Some? && (now.Some? ==> s.expiry.value <= now.value)
    requires e.outcome.Some?
    ensures Label(s, e, now) == if s.side.LONG_YES? <==> e.outcome.value.YES? then Win else Loss
  {
  }

  /** Without an outcome, a market that is settled by touching a price, or has no comparator or threshold, stays
      unresolved, whatever the prices. */
  lemma TouchStaysUnresolved(s: Signal, e: Evidence, now: Option<int>)
    requires (s.side.LONG_YES? || s.side.LONG_NO?) && s.expiry.Some? && (now.Some? ==> s.expiry.value <= now.value)
    requires e.outcome.None? && (e.comparator.None? || e.comparator.value.HIT? || e.threshold.None?)
    ensures Label(s, e, now) == Unresolved
  {
  }

  /** The profit of a settled side is its payout minus its own price: the YES probability for LONG_YES, the quoted
      NO price for LONG_NO, or what YES leaves of one without a quote; nothing else has a profit. */
  lemma ProfitReads(s: Signal, status: Status, no: real, yes: real)
    requires s.marketProbabilityYes == Some(yes)
    ensures s.side.LONG_YES? ==> BuildResult(s, Win, Some(no)).pnl == Some(Round6(1.0 - yes))
    ensures s.side.LONG_YES? ==> BuildResult(s, Loss, Some(no)).pnl == Some(Round6(0.0 - yes))
    ensures s.side.LONG_NO? ==> BuildResult(s, Win, Some(no)).pnl == Some(Round6(1.0 - no))
    ensures s.side.LONG_NO? ==> BuildResult(s, Loss, None).pnl == Some(Round6(0.0 - Round6(1.0 - yes)))
    ensures !status.Win? && !status.Loss? ==> BuildResult(s, status, Some(no)).pnl == None
    ensures s.side.NO_SIGNAL? || s.side.REJECTED? ==> BuildResult(s, status, Some(no)).pnl == None
  {
    hide Round6;
  }
}
