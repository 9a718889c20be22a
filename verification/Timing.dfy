/** Backoff: how long a failing job stays away, over every run of the frontier. */
module Timing {
  import opened Jobs
  import opened Lists
  import opened Store
  import opened Rules
  import opened Frontier
  import opened Conservation
  import opened Attempts
  import opened Recovery

  // ----- a failed job stays in the retry set until its time has come -----

  lemma ZAddKeepsOther(retry: seq<Entry>, due: int, job: Job, at: nat, e: Entry)
    requires e in retry && e.job != job && at <= |Without(retry, job)|
    ensures e in ZAdd(retry, due, job, at)
  {
    var rest := Without(retry, job);
    assert e in rest;
    assert rest == rest[..at] + rest[at..];
  }

  /** Only a sweep whose second has reached the due time takes an entry out. */
  lemma EntryStays(s: State, step: Step, e: Entry)
    requires Stamped(s) && e in s.store.retry && Unix(Next(s, step).clock) < e.due
    ensures e in Next(s, step).store.retry
  {
    if !Enabled(s, step) { return; }
    FiledIsNew(s, step);
    match step
    case Defer(i, delay, now, at) =>
      ZAddKeepsOther(s.store.retry, Unix(now + delay), s.held[i].job, at, e);
    case Finish(i, success, now, at) =>
      var job := Failed(s.held[i].job);
      CompleteFrame(s.store, s.held[i].job, success, s.held[i].worker, now, at);
      if !success && job.retryCount < MAX_RETRIES { ZAddKeepsOther(s.store.retry, RetryDue(job, now), job, at, e); }
    case Sweep(now) =>
      PromoteFrame(s.store, DueEntries(s.store.retry, Unix(now)), now);
    case Reap(worker, now) =>
      ReapCount(s.store, worker, LiveHandles(s.store, worker, now), now, x => 0);
    case _ =>
  }

  lemma {:induction false} EntryStaysLong(steps: seq<Step>, more: seq<Step>, e: Entry)
    requires e in After(steps).store.retry && Unix(After(steps + more).clock) < e.due
    ensures e in After(steps + more).store.retry
  {
    if more == [] {
      assert steps + more == steps;
    } else {
      var earlier := steps + more[..|more| - 1];
      AfterMore(steps, more);
      ClockRuns(After(earlier), more[|more| - 1]);
      EntryStaysLong(steps, more[..|more| - 1], e);
      RunsGood(earlier);
      EntryStays(After(earlier), more[|more| - 1], e);
    }
  }

  lemma ClockRuns(s: State, step: Step)
    ensures s.clock <= Next(s, step).clock && Unix(s.clock) <= Unix(Next(s, step).clock)
  {
  }

  /** The job of a worker's failing completion that is not its last one, filed at the given time. */
  predicate FailsWith(s: State, finish: Step, e: Entry) {
    && finish.Finish? && !finish.success && Enabled(s, finish)
    && s.held[finish.i].job.retryCount + 1 < MAX_RETRIES
    && e == Entry(Unix(finish.now + Backoff(s.held[finish.i].job.retryCount + 1)), Failed(s.held[finish.i].job))
  }

  lemma FailureIsFiled(s: State, finish: Step, e: Entry)
    requires FailsWith(s, finish, e)
    ensures e in Next(s, finish).store.retry
  {
    var h := s.held[finish.i];
    CompleteFrame(s.store, h.job, false, h.worker, finish.now, finish.at);
  }

  /** Enqueued once, and never requeued for rate limiting or reaped. */
  predicate OnlyOnce(log: Log, id: string) {
    Sum(log.enqueued, IsJob(id)) == 1 && Sum(log.deferred, IsJob(id)) == 0 && Sum(log.reaped, IsJob(id)) == 0
  }

  lemma EntryCounts(retry: seq<Entry>, e: Entry)
    requires e in retry
    ensures RetryCount(retry, IsJob(e.job.id)) > 0
  {
    var i :| 0 <= i < |retry| && retry[i] == e;
    CountJobsRemove(EntryJobs(retry), i, IsJob(e.job.id));
  }

  lemma FiledAfter(steps: seq<Step>, finish: Step, e: Entry)
    requires FailsWith(After(steps), finish, e)
    ensures e in After(steps + [finish]).store.retry
  {
    FailureIsFiled(After(steps), finish, e);
    AfterOne(steps, finish);
  }

  lemma SoleCopyWaits(steps: seq<Step>, e: Entry)
    requires e in After(steps).store.retry && OnlyOnce(After(steps).log, e.job.id)
    ensures ReadyCount(After(steps).store.ready, IsJob(e.job.id)) == 0
    ensures HeldCount(After(steps).held, IsJob(e.job.id)) == 0
  {
    EntryCounts(After(steps).store.retry, e);
    OneCopy(steps, e.job.id);
  }

  /**
   * In every run, a job that fails for the k-th time, k from 1 to 4, at time t is in the retry set as long
   * as the second floor(t + 2^k) has not begun; if there is only one copy of it, it is neither ready nor held.
   */
  lemma BackoffHonoured(steps: seq<Step>, finish: Step, more: seq<Step>, e: Entry)
    requires FailsWith(After(steps), finish, e) && Unix(After(steps + [finish] + more).clock) < e.due
    ensures e in After(steps + [finish] + more).store.retry
    ensures OnlyOnce(After(steps + [finish] + more).log, e.job.id) ==>
              && ReadyCount(After(steps + [finish] + more).store.ready, IsJob(e.job.id)) == 0
              && HeldCount(After(steps + [finish] + more).held, IsJob(e.job.id)) == 0
  {
    FiledAfter(steps, finish, e);
    EntryWaits(steps + [finish], more, e);
  }

  lemma EntryWaits(steps: seq<Step>, more: seq<Step>, e: Entry)
    requires e in After(steps).store.retry && Unix(After(steps + more).clock) < e.due
    ensures e in After(steps + more).store.retry
    ensures OnlyOnce(After(steps + more).log, e.job.id) ==>
              && ReadyCount(After(steps + more).store.ready, IsJob(e.job.id)) == 0
              && HeldCount(After(steps + more).held, IsJob(e.job.id)) == 0
  {
    EntryStaysLong(steps, more, e);
    if OnlyOnce(After(steps + more).log, e.job.id) { SoleCopyWaits(steps + more, e); }
  }

  lemma SweepOfEntry(s: Store, e: Entry, now: int)
    requires Sorted(s.retry) && Members(s.retry) && e in s.retry && 0 <= e.due
    ensures var t, job := SweepSpec(s, now), Promoted(e.job, now);
            && (e in t.retry <==> Unix(now) < e.due)
            && (Unix(now) >= e.due ==> job in ReadyList(t, job.priority))
  {
    SweepIsStablePartition(s, now, Promoted(e.job, now).priority);
    if Unix(now) >= e.due { DueIsChosen(DueEntries(s.retry, Unix(now)), now, e); }
  }

  /** The first sweep from that second on, and no earlier one, puts it into a ready list. */
  lemma BackoffEnds(steps: seq<Step>, finish: Step, more: seq<Step>, e: Entry, now: int)
    requires FailsWith(After(steps), finish, e) && Unix(After(steps + [finish] + more).clock) < e.due
    ensures var t, job := SweepSpec(After(steps + [finish] + more).store, now), Promoted(e.job, now);
            && (e in t.retry <==> Unix(now) < e.due)
            && (Unix(now) >= e.due ==> job in ReadyList(t, job.priority))
    ensures Unix(now) >= e.due ==> now - finish.now > Backoff(After(steps).held[finish.i].job.retryCount + 1) - SECOND
  {
    BackoffHonoured(steps, finish, more, e);
    SweepInRun(steps + [finish] + more, e, now);
    if Unix(now) >= e.due { BackoffLasts(After(steps).held[finish.i].job.retryCount + 1, finish.now, now); }
  }

  lemma SweepInRun(steps: seq<Step>, e: Entry, now: int)
    requires e in After(steps).store.retry
    ensures var t, job := SweepSpec(After(steps).store, now), Promoted(e.job, now);
            && (e in t.retry <==> Unix(now) < e.due)
            && (Unix(now) >= e.due ==> job in ReadyList(t, job.priority))
  {
    RunsGood(steps);
    EntryDue(After(steps), e);
    SweepOfEntry(After(steps).store, e, now);
  }

  lemma EntryDue(s: State, e: Entry)
    requires Good(s) && e in s.store.retry
    ensures 0 <= e.due
  {
    var r := (e: Entry) => Live(e.job) && 0 <= e.due;
    assert r(e);
  }

  /** From t to the beginning of that second more than 2^k - 1 seconds pass, although both are cut to whole seconds. */
  lemma BackoffLasts(k: nat, t: int, now: int)
    requires Unix(now) >= Unix(t + Backoff(k))
    ensures now - t > Backoff(k) - SECOND
  {
  }

  /** The waits after the first k failures together. */
  function Span(k: nat): int {
    if k == 0 then 0 else Span(k - 1) + Backoff(k) - SECOND
  }

  lemma SpanOfFour()
    ensures Span(4) == 26 * SECOND
  {
    assert Backoff(1) == 2 * SECOND && Backoff(2) == 4 * SECOND;
    assert Backoff(3) == 8 * SECOND && Backoff(4) == 16 * SECOND;
    assert Span(1) == SECOND && Span(2) == 4 * SECOND && Span(3) == 11 * SECOND;
  }

  /** The first failure of job id is known, and time is more than span past it. */
  predicate Past(log: Log, id: string, span: int, time: int) {
    id in log.firstFailure && log.firstFailure[id] + span < time
  }

  /** A copy that failed k times is only out of the retry set once the waits are over. */
  predicate Rested(job: Job, s: State) {
    1 <= job.retryCount <= 4 ==> Past(s.log, job.id, Span(job.retryCount), s.clock)
  }

  predicate Resting(e: Entry, s: State) {
    1 <= e.job.retryCount <= 4 ==>
      || Past(s.log, e.job.id, Span(e.job.retryCount), e.due * SECOND)
      || Past(s.log, e.job.id, Span(e.job.retryCount), s.clock)
  }

  ghost predicate Spaced(s: State) {
    && Everywhere(s, (j: Job) => Rested(j, s), (e: Entry) => Resting(e, s))
    && (forall id :: id in s.log.firstFailure ==> s.log.firstFailure[id] <= s.clock)
    && (forall j :: j in s.store.failed ==> Past(s.log, j.id, Span(4), s.clock))
  }

  lemma FailureRests(s: State, step: Step)
    requires Spaced(s) && CountsInRange(s) && step.Finish? && !step.success && Enabled(s, step)
    ensures var h, t := s.held[step.i], Next(s, step);
            if h.job.retryCount < 4 then Resting(Entry(RetryDue(Failed(h.job), step.now), Failed(h.job)), t)
            else Past(t.log, h.job.id, Span(4), step.now)
  {
    var job, t := s.held[step.i].job, Next(s, step);
    assert Live(job) by {
      var p := (j: Job) => Live(j);
      assert p(job);
    }
    assert Rested(job, s) by {
      var p := (j: Job) => Rested(j, s);
      assert p(job);
    }
    var k := job.retryCount;
    assert job.id in t.log.firstFailure && t.log.firstFailure[job.id] + Span(k) <= step.now;
    if k < 4 {
      assert Span(k + 1) == Span(k) + Backoff(k + 1) - SECOND;
    }
  }

  /** Rest lasts: the clock does not go back, and a first failure is never forgotten. */
  lemma RestLasts(s: State, step: Step)
    requires Enabled(s, step)
    ensures var t := Next(s, step);
            && (forall j: Job :: Rested(j, s) ==> Rested(j, t))
            && (forall e: Entry :: Resting(e, s) ==> Resting(e, t))
  {
    var t := Next(s, step);
    assert s.clock < t.clock;
    assert forall id :: id in s.log.firstFailure ==>
             id in t.log.firstFailure && t.log.firstFailure[id] == s.log.firstFailure[id];
  }

  lemma SpacedCarries(s: State, step: Step)
    requires Spaced(s) && CountsInRange(s) && Enabled(s, step)
    ensures Carries(s, step, (j: Job) => Rested(j, s), (e: Entry) => Resting(e, s),
                    (j: Job) => Rested(j, Next(s, step)), (e: Entry) => Resting(e, Next(s, step)))
  {
    RestLasts(s, step);
    if step.Finish? && !step.success { FailureRests(s, step); }
  }

  lemma FinishedSpaced(s: State, step: Step)
    requires Spaced(s) && CountsInRange(s) && Enabled(s, step) && step.Finish?
    ensures forall j :: j in Next(s, step).store.failed ==> Past(Next(s, step).log, j.id, Span(4), Next(s, step).clock)
  {
    var h, t := s.held[step.i], Next(s, step);
    CompleteFrame(s.store, h.job, step.success, h.worker, step.now, step.at);
    RestLasts(s, step);
    if !step.success { FailureRests(s, step); }
    forall j | j in s.store.failed
      ensures Past(t.log, j.id, Span(4), t.clock)
    {
      assert Past(s.log, j.id, Span(4), s.clock);
    }
  }

  lemma FailedSpaced(s: State, step: Step)
    requires Spaced(s) && CountsInRange(s) && Enabled(s, step)
    ensures forall j :: j in Next(s, step).store.failed ==> Past(Next(s, step).log, j.id, Span(4), Next(s, step).clock)
  {
    if step.Finish? { FinishedSpaced(s, step); }
    if step.Sweep? { PromoteFrame(s.store, DueEntries(s.store.retry, Unix(step.now)), step.now); }
    if step.Reap? { ReapCount(s.store, step.worker, LiveHandles(s.store, step.worker, step.now), step.now, x => 0); }
  }

  lemma StepKeepsSpaced(s: State, step: Step)
    requires Spaced(s) && CountsInRange(s)
    ensures Spaced(Next(s, step))
  {
    if !Enabled(s, step) { return; }
    SpacedCarries(s, step);
    FailedSpaced(s, step);
    StepKeepsEverywhere(s, step, (j: Job) => Rested(j, s), (e: Entry) => Resting(e, s),
                        (j: Job) => Rested(j, Next(s, step)), (e: Entry) => Resting(e, Next(s, step)));
  }

  lemma {:induction false} RunsSpaced(steps: seq<Step>)
    ensures Spaced(After(steps))
  {
    if steps == [] {
    } else {
      RunsSpaced(steps[..|steps| - 1]);
      RunsGood(steps[..|steps| - 1]);
      StepKeepsSpaced(After(steps[..|steps| - 1]), steps[|steps| - 1]);
    }
  }

  /**
   * In every run, rate-limited, reaped or not: the failure that makes a job dead comes more than 26
   * seconds after its first failure.
   */
  lemma DeathTakesTime(steps: seq<Step>, step: Step)
    requires step.Finish? && !step.success && Enabled(After(steps), step)
    requires After(steps).held[step.i].job.retryCount == MAX_RETRIES - 1
    ensures Past(Next(After(steps), step).log, After(steps).held[step.i].job.id, 26 * SECOND, step.now)
  {
    RunsSpaced(steps);
    RunsGood(steps);
    FailureRests(After(steps), step);
    SpanOfFour();
  }
}
