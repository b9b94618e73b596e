/** The realtime WebSocket client: a class whose handlers change its fields, its steps as a function, and the
    invariants of every run. Sockets and timers belong to the environment: a socket is live until its close
    event, delivers nothing afterwards, and a timer is pending until it fires or is cleared. */
module RealtimeClient {

  datatype Status = Connecting | Open | Stale | Reconnecting | Closed | Failed

  /** `pending` counts the reconnect timers that can still fire; `tracked` says that the one in the client's
      field is among them. Likewise for the stale-check intervals. `failed` remembers that the reconnect limit
      was reported since the last start; `created`, `ticks` and `starts` count over the whole run. */
  datatype State = State(
    reconnectCount: int,
    closedByUser: bool,
    live: int,
    pending: int,
    tracked: bool,
    intervals: int,
    intervalTracked: bool,
    failed: bool,
    created: int,
    ticks: int,
    starts: int,
    log: seq<Status>)

  datatype Event =
    | Start
    | Stop
    | SocketOpens
    | GoodMessage
    | BadMessage
    | SocketError
    | SocketCloses
    | TimerFires(fromField: bool)
    | StaleCheck(silent: bool)

  const INITIAL := State(0, false, 0, 0, false, 0, false, false, 0, 0, 0, [])

  /** What the environment can do in a state. */
  predicate Enabled(s: State, e: Event) {
    match e
    case Start => true
    case Stop => true
    case TimerFires(fromField) => if fromField then s.tracked else s.pending > (if s.tracked then 1 else 0)
    case StaleCheck(_) => s.intervals > 0
    case _ => s.live > 0
  }

  function Emit(s: State, status: Status): State { s.(log := s.log + [status]) }

  function OpenSocket(s: State): State {
    if s.closedByUser then s
    else
      Emit(s, if s.reconnectCount == 0 then Connecting else Reconnecting).(live := s.live + 1, created := s.created + 1)
  }

  function Step(s: State, e: Event, maxReconnects: int): State {
    match e
    case Start =>
      var begun := OpenSocket(s.(closedByUser := false, failed := false, starts := s.starts + 1));
      begun.(intervals := s.intervals + 1, intervalTracked := true)
    case Stop =>
      Emit(s, Closed).(
        closedByUser := true,
        intervals := if s.intervalTracked then s.intervals - 1 else s.intervals,
        intervalTracked := false,
        pending := if s.tracked then s.pending - 1 else s.pending,
        tracked := false)
    case SocketOpens => Emit(s, Open)
    case GoodMessage => s.(reconnectCount := 0, ticks := s.ticks + 1)
    case BadMessage => Emit(s, Stale)
    case SocketError => Emit(s, Reconnecting)
    case SocketCloses =>
      var gone := s.(live := s.live - 1);
      if s.closedByUser then gone
      else if s.reconnectCount >= maxReconnects then Emit(gone, Failed).(failed := true)
      else Emit(gone, Reconnecting).(reconnectCount := s.reconnectCount + 1, pending := s.pending + 1, tracked := true)
    case TimerFires(fromField) =>
      OpenSocket(s.(pending := s.pending - 1, tracked := if fromField then false else s.tracked))
    case StaleCheck(silent) => if silent then Emit(s, Stale) else s
  }

  // ----- the class

  class BinanceSpotRealtimeClient {
    const maxReconnects: int
    const reconnectBaseDelayMs: int
    var reconnectCount: int
    var closedByUser: bool
    /** The timers of the two fields, each true while it can still fire. The source leaves the handle of a fired
        reconnect timer in its field, where clearing it has no effect; here that field turns false on firing. */
    var staleTimer: bool
    var reconnectTimer: bool
    ghost var live: int
    ghost var pending: int
    ghost var intervals: int
    ghost var failed: bool
    ghost var created: int
    ghost var ticks: int
    ghost var starts: int
    var log: seq<Status>

    ghost function Now(): State
      reads this
    {
      State(reconnectCount, closedByUser, live, pending, reconnectTimer, intervals, staleTimer, failed, created,
            ticks, starts, log)
    }

    constructor (maxReconnects: int, reconnectBaseDelayMs: int)
      ensures Now() == INITIAL && this.maxReconnects == maxReconnects
    {
      this.maxReconnects := maxReconnects;
      this.reconnectBaseDelayMs := reconnectBaseDelayMs;
      reconnectCount, closedByUser, staleTimer, reconnectTimer := 0, false, false, false;
      live, pending, intervals, failed, created, ticks, starts := 0, 0, 0, false, 0, 0, 0;
      log := [];
    }

    method OpenConnection()
      modifies this
      ensures Now() == OpenSocket(old(Now()))
    {
      if closedByUser {
        return;
      }
      log := log + [if reconnectCount == 0 then Connecting else Reconnecting];
      live, created := live + 1, created + 1;
    }

    method StartClient()
      modifies this
      ensures Now() == Step(old(Now()), Start, maxReconnects)
    {
      closedByUser := false;
      failed, starts := false, starts + 1;
      OpenConnection();
      staleTimer, intervals := true, intervals + 1;
    }

    method StopClient()
      modifies this
      ensures Now() == Step(old(Now()), Stop, maxReconnects)
    {
      closedByUser := true;
      if staleTimer {
        staleTimer, intervals := false, intervals - 1;
      }
      if reconnectTimer {
        reconnectTimer, pending := false, pending - 1;
      }
      log := log + [Closed];
    }

    method OnOpen()
      requires Enabled(Now(), SocketOpens)
      modifies this
      ensures Now() == Step(old(Now()), SocketOpens, maxReconnects)
    {
      log := log + [Open];
    }

    method OnMessage(parsed: bool)
      requires Enabled(Now(), GoodMessage)
      modifies this
      ensures Now() == Step(old(Now()), if parsed then GoodMessage else BadMessage, maxReconnects)
    {
      if !parsed {
        log := log + [Stale];
        return;
      }
      reconnectCount := 0;
      ticks := ticks + 1;
    }

    method OnError()
      requires Enabled(Now(), SocketError)
      modifies this
      ensures Now() == Step(old(Now()), SocketError, maxReconnects)
    {
      log := log + [Reconnecting];
    }

    /** Returns the delay of the scheduled reconnect, or -1 when none is scheduled. */
    method OnClose() returns (delay: int)
      requires Enabled(Now(), SocketCloses)
      modifies this
      ensures Now() == Step(old(Now()), SocketCloses, maxReconnects)
      ensures delay == if pending == old(pending) + 1 then reconnectBaseDelayMs * reconnectCount else -1
    {
      delay := -1;
      live := live - 1;
      if closedByUser {
        return;
      }
      if reconnectCount >= maxReconnects {
        log := log + [Failed];
        failed := true;
        return;
      }
      reconnectCount := reconnectCount + 1;
      delay := reconnectBaseDelayMs * reconnectCount;
      log := log + [Reconnecting];
      reconnectTimer, pending := true, pending + 1;
    }

    method OnTimer(fromField: bool)
      requires Enabled(Now(), TimerFires(fromField))
      modifies this
      ensures Now() == Step(old(Now()), TimerFires(fromField), maxReconnects)
    {
      pending := pending - 1;
      if fromField {
        reconnectTimer := false;
      }
      OpenConnection();
    }

    method OnStaleCheck(silent: bool)
      requires Enabled(Now(), StaleCheck(silent))
      modifies this
      ensures Now() == Step(old(Now()), StaleCheck(silent), maxReconnects)
    {
      if silent {
        log := log + [Stale];
      }
    }
  }

  // ----- runs

  function Run(s: State, events: seq<Event>, maxReconnects: int): State {
    if events == [] then s
    else Step(Run(s, events[..|events| - 1], maxReconnects), events[|events| - 1], maxReconnects)
  }

  /** Every event of the run is possible where it happens. */
  predicate Possible(s: State, events: seq<Event>, maxReconnects: int) {
    events == [] ||
    (Possible(s, events[..|events| - 1], maxReconnects)
     && Enabled(Run(s, events[..|events| - 1], maxReconnects), events[|events| - 1]))
  }

  /** Every start of the run happens when no socket is live and no timer is pending. */
  predicate StartsIdle(events: seq<Event>, maxReconnects: int) {
    events == [] ||
    (StartsIdle(events[..|events| - 1], maxReconnects)
     && (events[|events| - 1].Start? ==>
           var s := Run(INITIAL, events[..|events| - 1], maxReconnects); s.live + s.pending == 0))
  }

  /** At every point of the run there is at most one live socket or pending reconnect. */
  predicate SingleConnection(events: seq<Event>, maxReconnects: int) {
    var s := Run(INITIAL, events, maxReconnects);
    s.live + s.pending <= 1 && (events == [] || SingleConnection(events[..|events| - 1], maxReconnects))
  }

  /** A negative limit works like zero: the first close already gives up. */
  function Cap(maxReconnects: int): int { if maxReconnects < 0 then 0 else maxReconnects }

  /** Holds in every state of every run. */
  predicate Sound(s: State, maxReconnects: int) {
    && 0 <= s.live && 0 <= s.pending && 0 <= s.ticks
    && (s.tracked ==> s.pending >= 1) && (s.intervalTracked ==> s.intervals >= 1) && 0 <= s.intervals
    && 0 <= s.reconnectCount <= Cap(maxReconnects)
    && s.created + s.pending <= s.starts + s.reconnectCount + Cap(maxReconnects) * s.ticks
    && (s.starts == 0 ==> s.live == 0 && s.pending == 0)
  }

  /** Holds in the states of the runs whose starts are idle: one connection while the client runs and has not
      given up, none once it has given up. */
  predicate Single(s: State) {
    && (s.closedByUser || s.failed || s.starts == 0 ==> s.pending == 0)
    && (if s.closedByUser then s.live <= 1
        else if s.failed || s.starts == 0 then s.live == 0
        else s.live + s.pending == 1)
    && (s.pending == 1 ==> s.tracked)
    && 0 <= s.starts
  }

  lemma StepSound(s: State, e: Event, maxReconnects: int)
    requires Sound(s, maxReconnects) && Enabled(s, e) && s.starts >= 0
    ensures Sound(Step(s, e, maxReconnects), maxReconnects)
    ensures Step(s, e, maxReconnects).starts >= 0
  {
    if e.GoodMessage? {
      assert Cap(maxReconnects) * (s.ticks + 1) == Cap(maxReconnects) * s.ticks + Cap(maxReconnects);
    }
  }

  /** Over every run of the client: the reconnect counter stays within its limit, and the sockets created never
      exceed one per start plus `maxReconnects` per good message and once more. */
  lemma {:induction false} RunSound(events: seq<Event>, maxReconnects: int)
    requires Possible(INITIAL, events, maxReconnects)
    ensures var s := Run(INITIAL, events, maxReconnects);
            && Sound(s, maxReconnects) && s.starts >= 0
            && s.created <= s.starts + Cap(maxReconnects) * (s.ticks + 1)
  {
    if events != [] {
      RunSound(events[..|events| - 1], maxReconnects);
      StepSound(Run(INITIAL, events[..|events| - 1], maxReconnects), events[|events| - 1], maxReconnects);
    }
    var s := Run(INITIAL, events, maxReconnects);
    assert Cap(maxReconnects) * (s.ticks + 1) == Cap(maxReconnects) * s.ticks + Cap(maxReconnects);
  }

  lemma StepSingle(s: State, e: Event, maxReconnects: int)
    requires Sound(s, maxReconnects) && Single(s) && Enabled(s, e)
    requires e.Start? ==> s.live + s.pending == 0
    ensures Single(Step(s, e, maxReconnects))
  {
  }

  lemma {:induction false} IdleStartsAreSingle(events: seq<Event>, maxReconnects: int)
    requires Possible(INITIAL, events, maxReconnects) && StartsIdle(events, maxReconnects)
    ensures Single(Run(INITIAL, events, maxReconnects)) && SingleConnection(events, maxReconnects)
  {
    if events != [] {
      var before := events[..|events| - 1];
      IdleStartsAreSingle(before, maxReconnects);
      RunSound(before, maxReconnects);
      StepSingle(Run(INITIAL, before, maxReconnects), events[|events| - 1], maxReconnects);
    }
  }

  lemma {:induction false} SingleMeansIdleStarts(events: seq<Event>, maxReconnects: int)
    requires Possible(INITIAL, events, maxReconnects)
    requires SingleConnection(events, maxReconnects)
    ensures StartsIdle(events, maxReconnects)
  {
    if events != [] {
      var before := events[..|events| - 1];
      SingleMeansIdleStarts(before, maxReconnects);
      RunSound(before, maxReconnects);
    }
  }

  /** A run never has more than one live socket or pending reconnect if and only if every start of the run comes
      when there is none. One start per client, in particular, is always safe. */
  lemma SingleExactlyWhenStartsIdle(events: seq<Event>, maxReconnects: int)
    requires Possible(INITIAL, events, maxReconnects)
    ensures SingleConnection(events, maxReconnects) <==> StartsIdle(events, maxReconnects)
  {
    if StartsIdle(events, maxReconnects) {
      IdleStartsAreSingle(events, maxReconnects);
    } else if SingleConnection(events, maxReconnects) {
      SingleMeansIdleStarts(events, maxReconnects);
    }
  }

  lemma {:induction false} OneStartIsIdle(events: seq<Event>, maxReconnects: int)
    requires Possible(INITIAL, events, maxReconnects)
    requires Run(INITIAL, events, maxReconnects).starts <= 1
    ensures StartsIdle(events, maxReconnects)
  {
    if events != [] {
      var before := events[..|events| - 1];
      RunSound(before, maxReconnects);
      OneStartIsIdle(before, maxReconnects);
    }
  }

  /** Starting again before the old socket has reported its close is not safe: this run has two connections. */
  lemma RestartTooSoonDoubles()
    ensures var events := [Start, Stop, Start, SocketCloses];
            && Possible(INITIAL, events, 3)
            && Run(INITIAL, events, 3).live == 1 && Run(INITIAL, events, 3).pending == 1
  {
    var a, b, c, d := [Start], [Start, Stop], [Start, Stop, Start], [Start, Stop, Start, SocketCloses];
    assert a[..0] == [] && b[..1] == a && c[..2] == b && d[..3] == c;
    assert Run(INITIAL, a, 3).live == 1 && Possible(INITIAL, a, 3);
    assert Run(INITIAL, b, 3).live == 1 && Possible(INITIAL, b, 3);
    assert Run(INITIAL, c, 3).live == 2 && Possible(INITIAL, c, 3);
  }

  predicate NoStart(events: seq<Event>) { forall i :: 0 <= i < |events| ==> !events[i].Start? }

  /** Once the client is stopped, or has given up with no connection left, it creates no socket until it is
      started again. */
  lemma {:induction false} QuietUntilStarted(s: State, events: seq<Event>, maxReconnects: int)
    requires Sound(s, maxReconnects) && s.starts >= 0 && Possible(s, events, maxReconnects) && NoStart(events)
    requires s.closedByUser || (s.failed && Single(s))
    ensures var t := Run(s, events, maxReconnects);
            && Sound(t, maxReconnects) && t.created == s.created && t.starts == s.starts
            && (t.closedByUser || (t.failed && Single(t)))
  {
    if events != [] {
      var before := events[..|events| - 1];
      QuietUntilStarted(s, before, maxReconnects);
      var t := Run(s, before, maxReconnects);
      StepSound(t, events[|events| - 1], maxReconnects);
      if !t.closedByUser {
        StepSingle(t, events[|events| - 1], maxReconnects);
      }
    }
  }

  /** No socket after `stop()`: whatever the run so far and whatever follows without a start. */
  lemma NoSocketAfterStop(run: seq<Event>, later: seq<Event>, maxReconnects: int)
    requires Possible(INITIAL, run, maxReconnects) && NoStart(later)
    requires Possible(Step(Run(INITIAL, run, maxReconnects), Stop, maxReconnects), later, maxReconnects)
    ensures var stopped := Step(Run(INITIAL, run, maxReconnects), Stop, maxReconnects);
            Run(stopped, later, maxReconnects).created == stopped.created == Run(INITIAL, run, maxReconnects).created
  {
    RunSound(run, maxReconnects);
    var s := Run(INITIAL, run, maxReconnects);
    StepSound(s, Stop, maxReconnects);
    QuietUntilStarted(Step(s, Stop, maxReconnects), later, maxReconnects);
  }

  /** No socket after "failed": on a run whose starts are idle, once the limit is reported. */
  lemma NoSocketAfterFailed(run: seq<Event>, later: seq<Event>, maxReconnects: int)
    requires Possible(INITIAL, run, maxReconnects) && StartsIdle(run, maxReconnects)
    requires Run(INITIAL, run, maxReconnects).failed && NoStart(later)
    requires Possible(Run(INITIAL, run, maxReconnects), later, maxReconnects)
    ensures var failed := Run(INITIAL, run, maxReconnects); Run(failed, later, maxReconnects).created == failed.created
  {
    RunSound(run, maxReconnects);
    IdleStartsAreSingle(run, maxReconnects);
    QuietUntilStarted(Run(INITIAL, run, maxReconnects), later, maxReconnects);
  }

  // ----- the client read from its events alone

  /** The last start or stop of the run was a stop. */
  predicate UserClosed(events: seq<Event>) {
    events != [] &&
    match events[|events| - 1]
    case Start => false
    case Stop => true
    case _ => UserClosed(events[..|events| - 1])
  }

  /** How many connections the running client has lost since its last good message. */
  function LostSinceGood(events: seq<Event>): nat {
    if events == [] then 0
    else
      var before := events[..|events| - 1];
      match events[|events| - 1]
      case GoodMessage => 0
      case SocketCloses => LostSinceGood(before) + if UserClosed(before) then 0 else 1
      case _ => LostSinceGood(before)
  }

  function Attempt(lost: int, cap: int): Status { if lost == 0 || cap == 0 then Connecting else Reconnecting }

  /** What the last event of the run reports. */
  function Report(before: seq<Event>, e: Event, cap: int): seq<Status> {
    match e
    case Start => [Attempt(LostSinceGood(before), cap)]
    case Stop => [Closed]
    case SocketOpens => [Open]
    case GoodMessage => []
    case BadMessage => [Stale]
    case SocketError => [Reconnecting]
    case SocketCloses =>
      if UserClosed(before) then [] else if LostSinceGood(before) >= cap then [Failed] else [Reconnecting]
    case TimerFires(_) => if UserClosed(before) then [] else [Attempt(LostSinceGood(before), cap)]
    case StaleCheck(silent) => if silent then [Stale] else []
  }

  function Reports(events: seq<Event>, cap: int): seq<Status> {
    if events == [] then []
    else Reports(events[..|events| - 1], cap) + Report(events[..|events| - 1], events[|events| - 1], cap)
  }

  /** The sockets that the run creates: one per start, and one per timer that fires while the client runs. */
  function Opened(events: seq<Event>): nat {
    if events == [] then 0
    else
      var before := events[..|events| - 1];
      Opened(before) +
      match events[|events| - 1]
      case Start => 1
      case TimerFires(_) => if UserClosed(before) then 0 else 1
      case _ => 0
  }

  /** The state agrees with the events so far. */
  predicate Reads(s: State, events: seq<Event>, cap: int) {
    && s.reconnectCount == (if LostSinceGood(events) < cap then LostSinceGood(events) else cap)
    && s.closedByUser == UserClosed(events) && s.log == Reports(events, cap) && s.created == Opened(events)
  }

  lemma StepReads(s: State, before: seq<Event>, e: Event, maxReconnects: int)
    requires Reads(s, before, Cap(maxReconnects))
    ensures var t, cap := Step(s, e, maxReconnects), Cap(maxReconnects);
            var lost := match e case GoodMessage => 0
                        case SocketCloses => LostSinceGood(before) + (if UserClosed(before) then 0 else 1)
                        case _ => LostSinceGood(before);
            && t.reconnectCount == (if lost < cap then lost else cap)
            && t.closedByUser == (match e case Start => false case Stop => true case _ => UserClosed(before))
            && t.log == Reports(before, cap) + Report(before, e, cap)
            && t.created == Opened(before) + (match e case Start => 1
                                              case TimerFires(_) => if UserClosed(before) then 0 else 1 case _ => 0)
  {
    hide LostSinceGood, UserClosed, Reports, Opened;
  }

  /** Over every run, possible or not, the state is what the events say: the counter is the number of connections lost
      since the last good message, up to the limit, so a good message gives all reconnects back; and the statuses
      reported and the sockets created are those of the event list. */
  lemma {:induction false} RunReads(events: seq<Event>, maxReconnects: int)
    ensures Reads(Run(INITIAL, events, maxReconnects), events, Cap(maxReconnects))
  {
    if events != [] {
      hide Step, Report;
      var before := events[..|events| - 1];
      RunReads(before, maxReconnects);
      StepReads(Run(INITIAL, before, maxReconnects), before, events[|events| - 1], maxReconnects);
    }
  }

  /** A lost connection of the running client schedules a reconnect exactly while fewer than the limit were lost
      since the last good message, and reports the failure exactly when that many were. */
  lemma CloseDecides(events: seq<Event>, maxReconnects: int)
    requires !UserClosed(events)
    ensures var s := Run(INITIAL, events, maxReconnects);
            var t := Step(s, SocketCloses, maxReconnects);
            if LostSinceGood(events) < Cap(maxReconnects)
            then t.pending == s.pending + 1 && t.tracked && t.log == s.log + [Reconnecting]
                 && t.reconnectCount == LostSinceGood(events) + 1
            else t.pending == s.pending && t.failed && t.log == s.log + [Failed]
  {
    RunReads(events, maxReconnects);
  }

  ghost predicate LossAtLimit(events: seq<Event>, k: nat, cap: int) {
    k < |events| && events[k].SocketCloses? && !UserClosed(events[..k]) && LostSinceGood(events[..k]) >= cap
  }

  lemma {:induction false} ReportsFailure(events: seq<Event>, cap: int)
    ensures Failed in Reports(events, cap) <==> exists k: nat :: LossAtLimit(events, k, cap)
  {
    if events != [] {
      var m := |events| - 1;
      var before := events[..m];
      ReportsFailure(before, cap);
      assert LossAtLimit(events, m, cap) <==> Failed in Report(before, events[m], cap);
      forall k: nat | k < m
        ensures LossAtLimit(events, k, cap) <==> LossAtLimit(before, k, cap)
      {
        assert events[..k] == before[..k];
      }
      if k: nat :| LossAtLimit(events, k, cap) {
        assert k == m || LossAtLimit(before, k, cap);
      }
      if k: nat :| LossAtLimit(before, k, cap) {
        assert LossAtLimit(events, k, cap);
      }
    }
  }

  /** The client ever reports failed if and only if, at some point of the run, it loses a connection with as many
      already lost since the last good message as the limit allows. A feed that delivers between its losses never
      fails. */
  lemma FailsExactly(events: seq<Event>, maxReconnects: int)
    ensures Failed in Run(INITIAL, events, maxReconnects).log <==>
              exists k: nat :: LossAtLimit(events, k, Cap(maxReconnects))
  {
    RunReads(events, maxReconnects);
    ReportsFailure(events, Cap(maxReconnects));
  }

  // ----- a feed that delivers between its losses

  const CYCLE: seq<Event> := [GoodMessage, SocketCloses, TimerFires(true), SocketOpens]

  function Session(n: nat): seq<Event> { if n == 0 then [Start, SocketOpens] else Session(n - 1) + CYCLE }

  lemma RunStep(s: State, events: seq<Event>, e: Event, maxReconnects: int)
    ensures Run(s, events + [e], maxReconnects) == Step(Run(s, events, maxReconnects), e, maxReconnects)
    ensures Possible(s, events + [e], maxReconnects) <==>
              Possible(s, events, maxReconnects) && Enabled(Run(s, events, maxReconnects), e)
  {
    hide Step, Enabled;
    assert (events + [e])[..|events|] == events;
  }

  lemma RunFour(s: State, events: seq<Event>, a: Event, b: Event, c: Event, d: Event, maxReconnects: int)
    ensures var t := Run(s, events, maxReconnects);
            var u := Step(t, a, maxReconnects);
            var v := Step(u, b, maxReconnects);
            var w := Step(v, c, maxReconnects);
            && Run(s, events + [a, b, c, d], maxReconnects) == Step(w, d, maxReconnects)
            && (Possible(s, events + [a, b, c, d], maxReconnects) <==>
                  && Possible(s, events, maxReconnects) && Enabled(t, a) && Enabled(u, b) && Enabled(v, c)
                  && Enabled(w, d))
  {
    hide Step, Enabled, Run, Possible;
    assert events + [a, b, c, d] == events + [a] + [b] + [c] + [d];
    RunStep(s, events, a, maxReconnects);
    RunStep(s, events + [a], b, maxReconnects);
    RunStep(s, events + [a] + [b], c, maxReconnects);
    RunStep(s, events + [a] + [b] + [c], d, maxReconnects);
  }

  /** A feed may be lost any number of times, as long as a message arrives before each loss and one reconnect is
      allowed: the run is possible, never fails, and always has its one socket back. */
  lemma {:induction false} HealthyFeed(n: nat, maxReconnects: int)
    requires maxReconnects >= 1
    ensures Possible(INITIAL, Session(n), maxReconnects)
    ensures var s := Run(INITIAL, Session(n), maxReconnects);
            && Failed !in s.log && s.live == 1 && s.pending == 0 && !s.tracked && !s.closedByUser
            && s.reconnectCount <= 1 && s.created == n + 1 && s.ticks == n
  {
    hide Run, Possible;
    if n == 0 {
      RunStep(INITIAL, [], Start, maxReconnects);
      RunStep(INITIAL, [Start], SocketOpens, maxReconnects);
      NothingRun(INITIAL, maxReconnects);
      assert [] + [Start] == [Start] && [Start] + [SocketOpens] == Session(0);
    } else {
      HealthyFeed(n - 1, maxReconnects);
      RunFour(INITIAL, Session(n - 1), GoodMessage, SocketCloses, TimerFires(true), SocketOpens, maxReconnects);
    }
  }

  lemma NothingRun(s: State, maxReconnects: int)
    ensures Run(s, [], maxReconnects) == s && Possible(s, [], maxReconnects)
  {
  }

  // ----- stale checks after a stop

  /** The client has been started, and not stopped since. */
  predicate Running(events: seq<Event>) {
    events != [] &&
    match events[|events| - 1]
    case Start => true
    case Stop => false
    case _ => Running(events[..|events| - 1])
  }

  /** The starts that come while the client runs. */
  function Restarts(events: seq<Event>): nat {
    if events == [] then 0
    else
      var before := events[..|events| - 1];
      Restarts(before) + if events[|events| - 1].Start? && Running(before) then 1 else 0
  }

  lemma StepIntervals(s: State, e: Event, maxReconnects: int)
    ensures var t := Step(s, e, maxReconnects);
            && t.intervalTracked == (match e case Start => true case Stop => false case _ => s.intervalTracked)
            && t.intervals == s.intervals + match e case Start => 1
                                                    case Stop => if s.intervalTracked then -1 else 0 case _ => 0
  {
  }

  lemma {:induction false} IntervalsCount(events: seq<Event>, maxReconnects: int)
    ensures var s := Run(INITIAL, events, maxReconnects);
            && s.intervalTracked == Running(events)
            && s.intervals == Restarts(events) + if Running(events) then 1 else 0
  {
    hide Step;
    if events != [] {
      IntervalsCount(events[..|events| - 1], maxReconnects);
      StepIntervals(Run(INITIAL, events[..|events| - 1], maxReconnects), events[|events| - 1], maxReconnects);
    }
  }

  /** Each start sets an interval and a stop clears one: a client that is not running can still report stale if and
      only if some start of the run came while it was running. */
  lemma StaleAfterStopExactly(events: seq<Event>, maxReconnects: int)
    requires !Running(events)
    ensures Enabled(Run(INITIAL, events, maxReconnects), StaleCheck(true)) <==> Restarts(events) > 0
  {
    IntervalsCount(events, maxReconnects);
  }

  /** Two starts before two losses: the second loss overwrites the first timer in its field, both timers fire, and
      the client has two sockets again. */
  lemma OverwrittenTimerFires(maxReconnects: int)
    requires maxReconnects >= 2
    ensures var events := [Start, Start, SocketCloses, SocketCloses, TimerFires(false), TimerFires(true)];
            && Possible(INITIAL, events, maxReconnects)
            && Run(INITIAL, events, maxReconnects).live == 2 && Run(INITIAL, events, maxReconnects).pending == 0
    ensures Possible(INITIAL, [Start, Start, SocketCloses, SocketCloses, TimerFires(true), TimerFires(false)],
                     maxReconnects)
  {
    hide Run, Possible;
    NothingRun(INITIAL, maxReconnects);
    var first := [Start, Start, SocketCloses, SocketCloses];
    assert [] + first == first;
    RunFour(INITIAL, [], Start, Start, SocketCloses, SocketCloses, maxReconnects);
    RunStep(INITIAL, first, TimerFires(false), maxReconnects);
    RunStep(INITIAL, first + [TimerFires(false)], TimerFires(true), maxReconnects);
    RunStep(INITIAL, first, TimerFires(true), maxReconnects);
    RunStep(INITIAL, first + [TimerFires(true)], TimerFires(false), maxReconnects);
    assert first + [TimerFires(false)] + [TimerFires(true)]
        == [Start, Start, SocketCloses, SocketCloses, TimerFires(false), TimerFires(true)];
    assert first + [TimerFires(true)] + [TimerFires(false)]
        == [Start, Start, SocketCloses, SocketCloses, TimerFires(true), TimerFires(false)];
  }
}
