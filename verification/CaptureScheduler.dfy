/** The capture scheduler. A call of `runDueJobs` reads the clock once and then goes through the jobs, awaiting
    each one it runs, so calls overlap: the scheduler is a class for a call on its own, and a system of
    interleaved steps for any number of calls at once. */
module CaptureScheduler {
  import opened Multiples

  datatype Job = BinanceCandles | PolymarketMarkets | FairValueSignals | ReplayMetrics | StrategyLab

  const JOBS: seq<Job> := [BinanceCandles, PolymarketMarkets, FairValueSignals, ReplayMetrics, StrategyLab]

  type Schedule = Job -> int

  function LastRun(lastRun: map<Job, int>, job: Job): int { if job in lastRun then lastRun[job] else 0 }

  predicate Due(lastRun: map<Job, int>, schedule: Schedule, job: Job, current: int) {
    current - LastRun(lastRun, job) >= schedule(job)
  }

  // ----- one call on its own

  function DueAmong(jobs: seq<Job>, lastRun: map<Job, int>, schedule: Schedule, current: int): seq<Job> {
    if jobs == [] then []
    else
      DueAmong(jobs[..|jobs| - 1], lastRun, schedule, current)
      + (if Due(lastRun, schedule, jobs[|jobs| - 1], current) then [jobs[|jobs| - 1]] else [])
  }

  function Sweep(jobs: seq<Job>, lastRun: map<Job, int>, schedule: Schedule, current: int): map<Job, int> {
    if jobs == [] then lastRun
    else
      var before := Sweep(jobs[..|jobs| - 1], lastRun, schedule, current);
      var job := jobs[|jobs| - 1];
      if Due(lastRun, schedule, job, current) then before[job := current] else before
  }

  class Scheduler {
    const schedule: Schedule
    const enabled: bool
    var lastRun: map<Job, int>
    var timer: bool

    constructor (schedule: Schedule, enabled: bool)
      ensures this.schedule == schedule && this.enabled == enabled && lastRun == map[] && !timer
    {
      this.schedule, this.enabled := schedule, enabled;
      lastRun, timer := map[], false;
    }

    /** A call that no other call overlaps runs exactly the jobs that were due when it began. */
    method RunDueJobs(current: int) returns (results: seq<Job>)
      modifies this`lastRun
      ensures results == DueAmong(JOBS, old(lastRun), schedule, current)
      ensures lastRun == Sweep(JOBS, old(lastRun), schedule, current)
    {
      results := [];
      for k := 0 to |JOBS|
        invariant results == DueAmong(JOBS[..k], old(lastRun), schedule, current)
        invariant lastRun == Sweep(JOBS[..k], old(lastRun), schedule, current)
        invariant forall j :: k <= j < |JOBS| ==> LastRun(lastRun, JOBS[j]) == LastRun(old(lastRun), JOBS[j])
      {
        var jobName := JOBS[k];
        JobsDiffer();
        assert JOBS[..k + 1][..k] == JOBS[..k];
        if current - LastRun(lastRun, jobName) >= schedule(jobName) {
          lastRun := lastRun[jobName := current];
          results := results + [jobName];
        }
      }
      assert JOBS[..|JOBS|] == JOBS;
    }

    method Start()
      modifies this`timer
      ensures timer == (old(timer) || enabled)
    {
      if timer || !enabled {
        return;
      }
      timer := true;
    }

    method Stop()
      modifies this`timer
      ensures !timer
    {
      if timer {
        timer := false;
      }
    }
  }

  lemma JobsDiffer()
    ensures forall i, j :: 0 <= i < j < |JOBS| ==> JOBS[i] != JOBS[j]
    ensures forall job: Job :: job in JOBS
  {
    assert JOBS[0] == BinanceCandles && JOBS[1] == PolymarketMarkets && JOBS[2] == FairValueSignals;
    assert JOBS[3] == ReplayMetrics && JOBS[4] == StrategyLab;
    forall job: Job
      ensures job in JOBS
    {
      match job
      case BinanceCandles => assert JOBS[0] == job;
      case PolymarketMarkets => assert JOBS[1] == job;
      case FairValueSignals => assert JOBS[2] == job;
      case ReplayMetrics => assert JOBS[3] == job;
      case StrategyLab => assert JOBS[4] == job;
    }
  }

  // ----- overlapping calls

  /** A call in flight: the clock it read, and the job it looks at next. A call whose job threw is abandoned. */
  datatype Call = Call(current: int, next: nat, abandoned: bool)

  datatype Write = Write(job: Job, time: int)

  /** `log` lists every write to `lastRun`, oldest first. */
  datatype State = State(lastRun: map<Job, int>, calls: seq<Call>, log: seq<Write>)

  datatype Event = Begin(now: int) | Advance(call: nat) | Throw(call: nat)

  predicate Enabled(s: State, e: Event) {
    match e
    case Begin(_) => true
    case Advance(c) => c < |s.calls| && s.calls[c].next < |JOBS| && !s.calls[c].abandoned
    case Throw(c) => c < |s.calls| && !s.calls[c].abandoned
  }

  /** One step of the system; an event that is not possible changes nothing. */
  function Step(s: State, e: Event, schedule: Schedule): State {
    if !Enabled(s, e) then s
    else match e
    case Begin(now) => s.(calls := s.calls + [Call(now, 0, false)])
    case Advance(c) =>
      var call := s.calls[c];
      var job := JOBS[call.next];
      var moved := s.(calls := s.calls[c := call.(next := call.next + 1)]);
      if Due(s.lastRun, schedule, job, call.current) then
        moved.(lastRun := s.lastRun[job := call.current], log := s.log + [Write(job, call.current)])
      else moved
    case Throw(c) => s.(calls := s.calls[c := s.calls[c].(abandoned := true)])
  }

  const INITIAL := State(map[], [], [])

  /** A run: any number of calls, interleaved in any way. */
  function Run(s: State, events: seq<Event>, schedule: Schedule): State {
    if events == [] then s else Step(Run(s, events[..|events| - 1], schedule), events[|events| - 1], schedule)
  }

  /** The times written for one job, oldest first. */
  function TimesOf(log: seq<Write>, job: Job): seq<int> {
    if log == [] then []
    else TimesOf(log[..|log| - 1], job) + (if log[|log| - 1].job == job then [log[|log| - 1].time] else [])
  }

  ghost predicate Apart(times: seq<int>, period: int) {
    forall i :: 0 < i < |times| ==> times[i] - times[i - 1] >= period
  }

  predicate LogMatches(s: State, schedule: Schedule, job: Job) {
    var times := TimesOf(s.log, job);
    && LastRun(s.lastRun, job) == (if times == [] then 0 else times[|times| - 1])
    && (times != [] ==> times[0] >= schedule(job))
  }

  /** What a call has settled for a job it has looked at: the job ran less than a period before its clock. */
  predicate Settled(s: State, schedule: Schedule, call: Call, job: Job) {
    schedule(job) > 0 ==> call.current - LastRun(s.lastRun, job) < schedule(job)
  }

  ghost predicate LogInOrder(s: State, schedule: Schedule) {
    forall job: Job :: Apart(TimesOf(s.log, job), schedule(job)) && LogMatches(s, schedule, job)
  }

  ghost predicate CallsSettled(s: State, schedule: Schedule) {
    && (forall c, k :: 0 <= c < |s.calls| && 0 <= k < s.calls[c].next && k < |JOBS| ==>
          Settled(s, schedule, s.calls[c], JOBS[k]))
    && (forall c :: 0 <= c < |s.calls| ==> s.calls[c].next <= |JOBS|)
  }

  ghost predicate Invariant(s: State, schedule: Schedule) { LogInOrder(s, schedule) && CallsSettled(s, schedule) }

  lemma TimesAppend(log: seq<Write>, w: Write, job: Job)
    ensures TimesOf(log + [w], job) == if w.job == job then TimesOf(log, job) + [w.time] else TimesOf(log, job)
  {
    assert (log + [w])[..|log|] == log;
  }

  lemma LogStep(s: State, schedule: Schedule, w: Write, job: Job)
    requires Apart(TimesOf(s.log, job), schedule(job)) && LogMatches(s, schedule, job)
    requires Due(s.lastRun, schedule, w.job, w.time)
    ensures var t := s.(lastRun := s.lastRun[w.job := w.time], log := s.log + [w]);
            Apart(TimesOf(t.log, job), schedule(job)) && LogMatches(t, schedule, job)
  {
    TimesAppend(s.log, w, job);
  }

  lemma WriteKeepsSettled(s: State, schedule: Schedule, w: Write, call: Call, job: Job)
    requires Due(s.lastRun, schedule, w.job, w.time) && Settled(s, schedule, call, job)
    ensures Settled(s.(lastRun := s.lastRun[w.job := w.time]), schedule, call, job)
  {
  }

  lemma AdvanceKeepsLog(s: State, schedule: Schedule, c: nat)
    requires LogInOrder(s, schedule) && Enabled(s, Advance(c))
    ensures LogInOrder(Step(s, Advance(c), schedule), schedule)
  {
    var t := Step(s, Advance(c), schedule);
    var w := Write(JOBS[s.calls[c].next], s.calls[c].current);
    if Due(s.lastRun, schedule, w.job, w.time) {
      forall job: Job
        ensures Apart(TimesOf(t.log, job), schedule(job)) && LogMatches(t, schedule, job)
      {
        LogStep(s, schedule, w, job);
      }
    } else {
      SameLog(s, t, schedule);
    }
  }

  lemma SameLog(s: State, t: State, schedule: Schedule)
    requires LogInOrder(s, schedule) && t.log == s.log && t.lastRun == s.lastRun
    ensures LogInOrder(t, schedule)
  {
    forall job: Job
      ensures Apart(TimesOf(t.log, job), schedule(job)) && LogMatches(t, schedule, job)
    {
      assert LogMatches(s, schedule, job);
    }
  }

  lemma AdvanceKeepsSettled(s: State, schedule: Schedule, c: nat)
    requires CallsSettled(s, schedule) && Enabled(s, Advance(c))
    ensures CallsSettled(Step(s, Advance(c), schedule), schedule)
  {
    hide TimesOf;
    var t := Step(s, Advance(c), schedule);
    var call := s.calls[c];
    var w := Write(JOBS[call.next], call.current);
    forall d, k | 0 <= d < |t.calls| && 0 <= k < t.calls[d].next && k < |JOBS|
      ensures Settled(t, schedule, t.calls[d], JOBS[k])
    {
      if d != c || k < call.next {
        assert Settled(s, schedule, s.calls[d], JOBS[k]);
        if Due(s.lastRun, schedule, w.job, w.time) {
          WriteKeepsSettled(s, schedule, w, s.calls[d], JOBS[k]);
        }
      }
    }
  }

  lemma StepKeepsInvariant(s: State, e: Event, schedule: Schedule)
    requires Invariant(s, schedule) && Enabled(s, e)
    ensures Invariant(Step(s, e, schedule), schedule)
  {
    hide LogInOrder;
    match e
    case Advance(c) =>
      AdvanceKeepsLog(s, schedule, c);
      AdvanceKeepsSettled(s, schedule, c);
    case _ =>
      var t := Step(s, e, schedule);
      SameLog(s, t, schedule);
      forall d, k | 0 <= d < |t.calls| && 0 <= k < t.calls[d].next && k < |JOBS|
        ensures Settled(t, schedule, t.calls[d], JOBS[k])
      {
        assert Settled(s, schedule, s.calls[d], JOBS[k]);
      }
  }

  lemma {:induction false} RunInvariant(events: seq<Event>, schedule: Schedule)
    ensures Invariant(Run(INITIAL, events, schedule), schedule)
  {
    hide Step;
    if events != [] {
      var before, e := events[..|events| - 1], events[|events| - 1];
      RunInvariant(before, schedule);
      if Enabled(Run(INITIAL, before, schedule), e) {
        StepKeepsInvariant(Run(INITIAL, before, schedule), e, schedule);
      } else {
        StepStutters(Run(INITIAL, before, schedule), e, schedule);
      }
    }
  }

  lemma StepStutters(s: State, e: Event, schedule: Schedule)
    requires !Enabled(s, e)
    ensures Step(s, e, schedule) == s
  {
  }

  /** Under any interleaving of overlapping calls, two successive times written for a job are at least its
      period apart. */
  lemma WritesAreApart(events: seq<Event>, schedule: Schedule, job: Job)
    ensures Apart(TimesOf(Run(INITIAL, events, schedule).log, job), schedule(job))
  {
    RunInvariant(events, schedule);
  }

  function Place(job: Job): (k: nat)
    ensures k < |JOBS| && JOBS[k] == job
  {
    match job
    case BinanceCandles => 0
    case PolymarketMarkets => 1
    case FairValueSignals => 2
    case ReplayMetrics => 3
    case StrategyLab => 4
  }

  /** Whenever a call has gone through all jobs, every job's last run is less than a period before its clock:
      no due job was skipped, by this call or by one that overlapped it. */
  lemma FinishedCallLeavesNothingDue(events: seq<Event>, schedule: Schedule, c: nat, job: Job)
    requires var s := Run(INITIAL, events, schedule); c < |s.calls| && s.calls[c].next == |JOBS|
    requires schedule(job) > 0
    ensures var s := Run(INITIAL, events, schedule); s.calls[c].current - LastRun(s.lastRun, job) < schedule(job)
  {
    RunInvariant(events, schedule);
    var s := Run(INITIAL, events, schedule);
    assert Settled(s, schedule, s.calls[c], JOBS[Place(job)]);
  }

  lemma {:induction false} ApartByMany(times: seq<int>, i: nat, j: nat, period: int)
    requires Apart(times, period) && i <= j < |times|
    ensures times[j] - times[i] >= (j - i) * period
    decreases j - i
  {
    if i < j {
      ApartByMany(times, i, j - 1, period);
      assert (j - i) * period == (j - 1 - i) * period + period;
    }
  }

  /** Any window of length `length` holds at most length / period + 1 runs of a job: if the runs `i` to `j` lie
      in it, there are no more than that. */
  lemma RunsInWindow(events: seq<Event>, schedule: Schedule, job: Job, i: nat, j: nat, length: nat)
    requires schedule(job) > 0
    requires var times := TimesOf(Run(INITIAL, events, schedule).log, job);
             i <= j < |times| && times[j] - times[i] <= length
    ensures j - i + 1 <= length / schedule(job) + 1
  {
    hide Run;
    WritesAreApart(events, schedule, job);
    var period := schedule(job);
    ApartByMany(TimesOf(Run(INITIAL, events, schedule).log, job), i, j, period);
    MultipleOf(j - i, period);
    DivMonotone((j - i) * period, length, period);
  }

  // ----- a call that nothing overlaps

  function AloneFor(c: nat, k: nat): seq<Event> { if k == 0 then [] else AloneFor(c, k - 1) + [Advance(c)] }

  lemma RunOneMore(s: State, events: seq<Event>, e: Event, schedule: Schedule)
    ensures Run(s, events + [e], schedule) == Step(Run(s, events, schedule), e, schedule)
  {
    hide Step;
    assert (events + [e])[..|events|] == events;
  }

  predicate SweptUpTo(t: State, s: State, schedule: Schedule, now: int, k: nat)
    requires k <= |JOBS|
  {
    && t.lastRun == Sweep(JOBS[..k], s.lastRun, schedule, now)
    && t.calls == s.calls + [Call(now, k, false)]
    && forall j :: k <= j < |JOBS| ==> LastRun(t.lastRun, JOBS[j]) == LastRun(s.lastRun, JOBS[j])
  }

  lemma SweepOneMore(t: State, s: State, schedule: Schedule, now: int, k: nat)
    requires k < |JOBS| && SweptUpTo(t, s, schedule, now, k)
    ensures SweptUpTo(Step(t, Advance(|s.calls|), schedule), s, schedule, now, k + 1)
  {
    JobsDiffer();
    assert JOBS[..k + 1][..k] == JOBS[..k];
    var u := Step(t, Advance(|s.calls|), schedule);
    assert Due(t.lastRun, schedule, JOBS[k], now) == Due(s.lastRun, schedule, JOBS[k], now);
    forall j | k + 1 <= j < |JOBS|
      ensures LastRun(u.lastRun, JOBS[j]) == LastRun(s.lastRun, JOBS[j])
    {
      assert JOBS[k] != JOBS[j];
    }
  }

  lemma {:induction false} AloneSweeps(s: State, schedule: Schedule, now: int, k: nat)
    requires k <= |JOBS|
    ensures SweptUpTo(Run(s.(calls := s.calls + [Call(now, 0, false)]), AloneFor(|s.calls|, k), schedule),
                      s, schedule, now, k)
  {
    var begun := s.(calls := s.calls + [Call(now, 0, false)]);
    if k > 0 {
      hide Step, SweptUpTo, Run;
      AloneSweeps(s, schedule, now, k - 1);
      SweepOneMore(Run(begun, AloneFor(|s.calls|, k - 1), schedule), s, schedule, now, k - 1);
      RunOneMore(begun, AloneFor(|s.calls|, k - 1), Advance(|s.calls|), schedule);
    }
  }

  /** In the step system, a call that goes through all jobs without being overlapped does what `RunDueJobs`
      does: it writes its clock to exactly the jobs that were due when it began. */
  lemma AloneIsRunDueJobs(s: State, schedule: Schedule, now: int, job: Job)
    ensures var t := Run(Step(s, Begin(now), schedule), AloneFor(|s.calls|, |JOBS|), schedule);
            && t.lastRun == Sweep(JOBS, s.lastRun, schedule, now)
            && LastRun(t.lastRun, job) == (if Due(s.lastRun, schedule, job, now) then now else LastRun(s.lastRun, job))
            && t.calls == s.calls + [Call(now, |JOBS|, false)]
  {
    AloneSweeps(s, schedule, now, |JOBS|);
    assert JOBS[..|JOBS|] == JOBS;
    SweptJob(JOBS, s.lastRun, schedule, now, job);
    assert JOBS[Place(job)] == job;
  }

  lemma {:induction false} SweptJob(jobs: seq<Job>, lastRun: map<Job, int>, schedule: Schedule, now: int, job: Job)
    ensures LastRun(Sweep(jobs, lastRun, schedule, now), job)
         == if job in jobs && Due(lastRun, schedule, job, now) then now else LastRun(lastRun, job)
  {
    if jobs != [] {
      SweptJob(jobs[..|jobs| - 1], lastRun, schedule, now, job);
      assert jobs == jobs[..|jobs| - 1] + [jobs[|jobs| - 1]];
    }
  }

  lemma StepKeepsCalls(s: State, e: Event, schedule: Schedule, c: nat)
    requires c < |s.calls|
    ensures var t := Step(s, e, schedule);
            && c < |t.calls| && t.calls[c].current == s.calls[c].current && s.calls[c].next <= t.calls[c].next
            && (s.calls[c].abandoned ==> t.calls[c] == s.calls[c])
  {
  }

  /** A call whose job throws looks at no further job, whatever else happens; the run it had written stays written. */
  lemma {:induction false} ThrownCallStops(s: State, events: seq<Event>, schedule: Schedule, c: nat)
    requires c < |s.calls| && !s.calls[c].abandoned
    ensures var thrown := Step(s, Throw(c), schedule);
            var t := Run(thrown, events, schedule);
            && thrown.lastRun == s.lastRun && thrown.log == s.log
            && c < |t.calls| && t.calls[c] == s.calls[c].(abandoned := true)
  {
    if events != [] {
      ThrownCallStops(s, events[..|events| - 1], schedule, c);
      hide Step;
      var before := Run(Step(s, Throw(c), schedule), events[..|events| - 1], schedule);
      StepKeepsCalls(before, events[|events| - 1], schedule, c);
    }
  }
}
