/** How often a job is tried, and why the work on it ends. */
module Attempts {
  import opened Options
  import opened Jobs
  import opened Lists
  import opened Store
  import opened Frontier
  import opened Conservation
  import opened Scores

  // ----- retry counts -----

  /** Every live copy has failed at most four times. */
  predicate Live(job: Job) {
    0 <= job.retryCount < MAX_RETRIES
  }

  ghost predicate CountsInRange(s: State) {
    && Everywhere(s, (j: Job) => Live(j), (e: Entry) => Live(e.job) && 0 <= e.due)
    && 0 <= s.clock
    && forall j :: j in s.store.failed ==> j.retryCount == MAX_RETRIES && j.status == Dead
  }

  lemma StepKeepsCounts(s: State, step: Step)
    requires CountsInRange(s)
    ensures CountsInRange(Next(s, step))
  {
    var p, r := (j: Job) => Live(j), (e: Entry) => Live(e.job) && 0 <= e.due;
    StepKeepsEverywhere(s, step, p, r, p, r);
    if Enabled(s, step) {
      match step
      case Finish(i, success, now, at) =>
        CompleteFrame(s.store, s.held[i].job, success, s.held[i].worker, now, at);
      case Sweep(now) =>
        PromoteFrame(s.store, DueEntries(s.store.retry, Unix(now)), now);
      case Reap(worker, now) =>
        ReapCount(s.store, worker, LiveHandles(s.store, worker, now), now, t => 0);
      case _ =>
    }
  }

  /** In every run: fewer than five failures on every copy that waits or is held, five on every failed one. */
  lemma {:induction false} RetryCountsBounded(steps: seq<Step>)
    ensures CountsInRange(After(steps))
  {
    if steps == [] {
    } else {
      RetryCountsBounded(steps[..|steps| - 1]);
      StepKeepsCounts(After(steps[..|steps| - 1]), steps[|steps| - 1]);
    }
  }

  // ----- the log by level -----

  predicate Between(tags: seq<Tag>, low: int, high: int) {
    forall t :: t in tags ==> low <= t.count <= high
  }

  predicate LogInRange(log: Log) {
    && Between(log.enqueued, 0, 0) && Between(log.taken, 0, 4) && Between(log.deferred, 0, 4)
      && Between(log.reaped, 0, 4)
    && Between(log.failures, 0, 4) && Between(log.refiled, 1, 4) && Between(log.dead, 5, 5)
  }

  lemma {:induction false} ReapedInRange(s: Store, worker: string, ids: seq<string>, now: int)
    requires RecordsAll(s.records, j => Live(j))
    ensures Between(ReapedTags(s, worker, ids, now), 0, 4)
    ensures RecordsAll(ReapSpec(s, worker, ids, now).records, j => Live(j))
  {
    if ids == [] {
    } else {
      ReapedInRange(s, worker, ids[..|ids| - 1], now);
    }
  }

  lemma StepKeepsLogInRange(s: State, step: Step)
    requires CountsInRange(s) && LogInRange(s.log)
    ensures LogInRange(Next(s, step).log)
  {
    if !Enabled(s, step) { return; }
    match step
    case Take(order, worker, now, lag) =>
      FirstNonEmptyFacts(s.store, order);
      PopKeeps(s.store.ready, FirstNonEmpty(s.store, order).value, j => Live(j));
    case Reap(worker, now) =>
      ReapedInRange(s.store, worker, LiveHandles(s.store, worker, now), now);
    case _ =>
  }

  lemma {:induction false} LogsInRange(steps: seq<Step>)
    ensures LogInRange(After(steps).log)
  {
    if steps == [] {
    } else {
      LogsInRange(steps[..|steps| - 1]);
      RetryCountsBounded(steps[..|steps| - 1]);
      StepKeepsLogInRange(After(steps[..|steps| - 1]), steps[|steps| - 1]);
    }
  }

  /** The copies of one job that have failed k times. */
  function Level(id: string, k: int): Tag -> nat {
    (t: Tag) => if t.id == id && t.count == k then 1 else 0
  }

  /** Levels 0 to k together. */
  function UpTo(tags: seq<Tag>, id: string, k: int): nat
    decreases k + 1
  {
    if k < 0 then 0 else UpTo(tags, id, k - 1) + Sum(tags, Level(id, k))
  }

  lemma {:induction false} UpToAppend(tags: seq<Tag>, tag: Tag, id: string, k: int)
    ensures UpTo(tags + [tag], id, k) == UpTo(tags, id, k) + if tag.id == id && 0 <= tag.count <= k then 1 else 0
    decreases k + 1
  {
    if k >= 0 {
      UpToAppend(tags, tag, id, k - 1);
      SumAppend(tags, tag, Level(id, k));
    }
  }

  lemma {:induction false} UpToNothing(id: string, k: int)
    ensures UpTo([], id, k) == 0
    decreases k + 1
  {
    if k >= 0 { UpToNothing(id, k - 1); }
  }

  lemma {:induction false} SplitByLevel(tags: seq<Tag>, id: string)
    requires Between(tags, 0, 4)
    ensures Sum(tags, IsJob(id)) == UpTo(tags, id, 4)
  {
    if tags == [] {
      UpToNothing(id, 4);
    } else {
      var n := |tags| - 1;
      assert forall t :: t in tags[..n] ==> t in tags;
      assert tags[n] in tags;
      SplitByLevel(tags[..n], id);
      UpToAppend(tags[..n], tags[n], id, 4);
      assert tags == tags[..n] + [tags[n]];
    }
  }

  lemma {:induction false} NotAtLevel(tags: seq<Tag>, id: string, k: int)
    requires forall t :: t in tags ==> t.count != k
    ensures Sum(tags, Level(id, k)) == 0
  {
    if tags == [] {
    } else {
      var earlier := tags[..|tags| - 1];
      assert forall t :: t in earlier ==> t in tags;
      assert tags[|tags| - 1] in tags;
      NotAtLevel(earlier, id, k);
    }
  }

  /** Copies filed at levels 0 to k otherwise than by a failure. */
  function Filed(log: Log, id: string, k: int): nat {
    UpTo(log.enqueued, id, k) + UpTo(log.deferred, id, k) + UpTo(log.reaped, id, k)
  }

  /**
   * Executions at level k come from copies filed there, by a failure one level below or otherwise;
   * failures at level k come from executions there and file the copy one level up, or bury it.
   */
  ghost predicate Flow(log: Log, id: string, k: int) {
    && Sum(log.taken, Level(id, k)) <=
         Sum(log.enqueued, Level(id, k)) + Sum(log.deferred, Level(id, k)) + Sum(log.reaped, Level(id, k))
         + Sum(log.refiled, Level(id, k))
    && Sum(log.failures, Level(id, k)) <= Sum(log.taken, Level(id, k))
    && Sum(log.refiled, Level(id, k + 1)) + Sum(log.dead, Level(id, k + 1)) == Sum(log.failures, Level(id, k))
  }

  ghost predicate Flows(log: Log, id: string) {
    LogInRange(log) && forall k :: Flow(log, id, k)
  }

  lemma RaisedLevel(id: string, k: int, t: Tag)
    ensures Raised(Level(id, k + 1))(t) == Level(id, k)(t)
  {
    var f := Level(id, k + 1);
    assert f(Bump(t)) == if Bump(t).id == id && Bump(t).count == k + 1 then 1 else 0;
    assert Raised(f)(t) == f(Bump(t));
  }

  lemma RunsFlow(steps: seq<Step>, id: string)
    ensures Flows(After(steps).log, id)
  {
    LogsInRange(steps);
    forall k: int
      ensures Flow(After(steps).log, id, k)
    {
      RunsBalanced(steps, Level(id, k));
      RunsBalanced(steps, Level(id, k + 1));
      FlowAt(After(steps), id, k);
    }
  }

  lemma FlowAt(s: State, id: string, k: int)
    requires Balanced(s, Level(id, k)) && FailuresFiled(s.log, Level(id, k + 1))
    ensures Flow(s.log, id, k)
  {
    forall t | t in s.log.failures
      ensures Level(id, k)(t) == Raised(Level(id, k + 1))(t)
    {
      RaisedLevel(id, k, t);
    }
    CountSame(s.log.failures, Level(id, k), Raised(Level(id, k + 1)));
  }

  lemma {:induction false} TakenAtLevel(log: Log, id: string, k: int)
    requires 0 <= k && Flows(log, id)
    ensures Sum(log.taken, Level(id, k)) <= Filed(log, id, k)
  {
    assert Flow(log, id, k);
    if k == 0 {
      NotAtLevel(log.refiled, id, 0);
    } else {
      TakenAtLevel(log, id, k - 1);
      assert Flow(log, id, k - 1);
    }
  }

  lemma {:induction false} TakenUpToLevel(log: Log, id: string, k: int)
    requires -1 <= k && Flows(log, id)
    ensures UpTo(log.taken, id, k) <= (k + 1) * Filed(log, id, k)
  {
    if k >= 0 {
      TakenUpToLevel(log, id, k - 1);
      TakenAtLevel(log, id, k);
      Scale(k, Filed(log, id, k - 1), Filed(log, id, k));
    }
  }

  lemma Scale(k: nat, a: nat, b: nat)
    requires a <= b
    ensures k * a + b <= (k + 1) * b
  {
    assert (k + 1) * b == k * b + b;
    assert k * (b - a) >= 0;
  }

  /**
   * In every run a job is executed at most five times for each time it was enqueued, requeued after
   * rate limiting, or reaped; so at most five times when it was only enqueued once.
   */
  lemma AttemptsBounded(steps: seq<Step>, id: string)
    ensures var log := After(steps).log;
            Sum(log.taken, IsJob(id)) <=
              5 * (Sum(log.enqueued, IsJob(id)) + Sum(log.deferred, IsJob(id)) + Sum(log.reaped, IsJob(id)))
  {
    RunsFlow(steps, id);
    TakenTotal(After(steps).log, id);
  }

  lemma TakenTotal(log: Log, id: string)
    requires Flows(log, id)
    ensures Sum(log.taken, IsJob(id)) <=
              5 * (Sum(log.enqueued, IsJob(id)) + Sum(log.deferred, IsJob(id)) + Sum(log.reaped, IsJob(id)))
  {
    SplitByLevel(log.taken, id);
    SplitByLevel(log.enqueued, id);
    SplitByLevel(log.deferred, id);
    SplitByLevel(log.reaped, id);
    TakenUpToLevel(log, id, 4);
  }

  /** A death is preceded by an execution at every level. */
  lemma {:induction false} TakenAtEveryLevel(log: Log, id: string, k: int)
    requires Flows(log, id) && 0 <= k <= 4 && Sum(log.dead, Level(id, 5)) > 0
    requires Sum(log.deferred, IsJob(id)) == 0 && Sum(log.reaped, IsJob(id)) == 0
    ensures Sum(log.failures, Level(id, k)) > 0 && Sum(log.taken, Level(id, k)) > 0
    decreases 4 - k
  {
    assert Flow(log, id, k);
    if k < 4 {
      TakenAtEveryLevel(log, id, k + 1);
      assert Flow(log, id, k + 1);
      NotAtLevel(log.enqueued, id, k + 1);
      LevelWithinJob(log.deferred, id, k + 1);
      LevelWithinJob(log.reaped, id, k + 1);
    }
  }

  lemma {:induction false} LevelWithinJob(tags: seq<Tag>, id: string, k: int)
    ensures Sum(tags, Level(id, k)) <= Sum(tags, IsJob(id))
  {
    if tags == [] {
    } else {
      LevelWithinJob(tags[..|tags| - 1], id, k);
    }
  }

  lemma {:induction false} AtLeastOnePerLevel(tags: seq<Tag>, id: string, k: int)
    requires -1 <= k && forall l :: 0 <= l <= k ==> Sum(tags, Level(id, l)) > 0
    ensures UpTo(tags, id, k) >= k + 1
  {
    if k >= 0 { AtLeastOnePerLevel(tags, id, k - 1); }
  }

  /** A job that ends in the failed list, without requeues and reaps, was executed exactly five times. */
  lemma DeadAfterFiveAttempts(steps: seq<Step>, id: string)
    requires Sum(After(steps).log.enqueued, IsJob(id)) == 1
    requires Sum(After(steps).log.deferred, IsJob(id)) == 0 && Sum(After(steps).log.reaped, IsJob(id)) == 0
    requires CountJobs(After(steps).store.failed, IsJob(id)) > 0
    ensures Sum(After(steps).log.taken, IsJob(id)) == 5
  {
    RunsFlow(steps, id);
    RunsBalanced(steps, IsJob(id));
    FiveAttempts(After(steps).log, id);
  }

  lemma FiveAttempts(log: Log, id: string)
    requires Flows(log, id) && Sum(log.dead, IsJob(id)) > 0
    requires Sum(log.enqueued, IsJob(id)) == 1
    requires Sum(log.deferred, IsJob(id)) == 0 && Sum(log.reaped, IsJob(id)) == 0
    ensures Sum(log.taken, IsJob(id)) == 5
  {
    CountSame(log.dead, IsJob(id), Level(id, 5));
    forall l | 0 <= l <= 4
      ensures Sum(log.taken, Level(id, l)) > 0
    {
      TakenAtEveryLevel(log, id, l);
    }
    AtLeastOnePerLevel(log.taken, id, 4);
    SplitByLevel(log.taken, id);
    TakenTotal(log, id);
  }

  // ----- a measure that every productive step decreases -----

  function Steps(t: Tag): int {
    3 * (MAX_RETRIES - t.count)
  }

  function AtLeast0(n: int): nat {
    if n < 0 then 0 else n
  }

  const RetryWeight: Tag -> nat := (t: Tag) => AtLeast0(Steps(t))
  const ReadyWeight: Tag -> nat := (t: Tag) => AtLeast0(Steps(t) - 1)
  const HeldWeight: Tag -> nat := (t: Tag) => AtLeast0(Steps(t) - 2)

  /** An upper bound on the number of steps that the copies there are can still make. */
  function Rank(s: State): nat {
    ReadyCount(s.store.ready, ReadyWeight) + RetryCount(s.store.retry, RetryWeight) + HeldCount(s.held, HeldWeight)
  }

  /** Steps that bring in new copies. */
  predicate AddsWork(step: Step) {
    step.Submit? || step.Defer? || step.Reap?
  }

  /** A sweep that finds nothing due. */
  predicate Idle(s: State, step: Step) {
    step.Sweep? && DueEntries(s.store.retry, Unix(step.now)) == []
  }

  lemma {:induction false} RankOfDue(due: seq<Entry>)
    requires forall e :: e in due ==> Live(e.job)
    ensures RetryCount(due, RetryWeight) == RetryCount(due, ReadyWeight) + |due|
  {
    if due == [] {
    } else {
      RetryCountFirst(due, RetryWeight);
      RetryCountFirst(due, ReadyWeight);
      RankOfDue(due[1..]);
    }
  }

  lemma TakeRank(s: State, step: Step)
    requires step.Take? && Enabled(s, step) && CountsInRange(s)
    ensures Rank(Next(s, step)) == Rank(s) - 1
  {
    FirstNonEmptyFacts(s.store, step.order);
    var q, t := FirstNonEmpty(s.store, step.order).value, Next(s, step);
    var job := Taken(ReadyList(s.store, q)[0], step.now);
    PopKeeps(s.store.ready, q, (j: Job) => Live(j));
    PopCount(s.store.ready, q, ReadyWeight);
    assert HeldJobs(t.held) == HeldJobs(s.held) + [job];
    CountJobsConcat(HeldJobs(s.held), [job], HeldWeight);
    CountJobsOne(job, HeldWeight);
  }

  lemma FinishWeights(job: Job)
    requires Live(job)
    ensures One(job, HeldWeight) == 3 * (MAX_RETRIES - job.retryCount) - 2
    ensures Failed(job).retryCount < MAX_RETRIES ==>
              One(Failed(job), RetryWeight) == 3 * (MAX_RETRIES - job.retryCount) - 3
  {
  }

  lemma FinishRank(s: State, step: Step)
    requires step.Finish? && Enabled(s, step) && Good(s)
    ensures Rank(Next(s, step)) < Rank(s)
  {
    var h, t := s.held[step.i], Next(s, step);
    var job := Failed(h.job);
    FiledIsNew(s, step);
    FinishWeights(h.job);
    FinishRetry(s, step);
    DropHeld(s.held, step.i, HeldWeight);
    CompleteFrame(s.store, h.job, step.success, h.worker, step.now, step.at);
    if !step.success && job.retryCount < MAX_RETRIES {
      assert RetryCount(t.store.retry, RetryWeight)
          == RetryCount(s.store.retry, RetryWeight) + One(job, RetryWeight) by {
        ZAddCount(s.store.retry, RetryDue(job, step.now), job, step.at, RetryWeight);
      }
    }
  }

  lemma SweepRank(s: State, now: int)
    requires Enabled(s, Sweep(now)) && CountsInRange(s)
    ensures Rank(Next(s, Sweep(now))) == Rank(s) - |DueEntries(s.store.retry, Unix(now))|
  {
    var due := DueEntries(s.store.retry, Unix(now));
    PromoteFrame(s.store, due, now);
    PromoteCount(s.store, due, now, ReadyWeight);
    SweepCount(s.store.retry, Unix(now), RetryWeight);
    RankOfDue(due);
  }

  /** What every reachable state satisfies. */
  ghost predicate Good(s: State) {
    CountsInRange(s) && Stamped(s) && Sorted(s.store.retry) && Members(s.store.retry)
  }

  lemma {:induction false} RunsGood(steps: seq<Step>)
    ensures Good(After(steps))
  {
    if steps == [] {
    } else {
      var before, step := After(steps[..|steps| - 1]), steps[|steps| - 1];
      RunsGood(steps[..|steps| - 1]);
      StepKeepsCounts(before, step);
      StepKeepsStamped(before, step);
      StepKeepsSorted(before, step);
    }
  }

  lemma FinishKeepsSorted(s: State, step: Step)
    requires step.Finish? && Enabled(s, step) && Sorted(s.store.retry) && Members(s.store.retry)
    ensures Sorted(Next(s, step).store.retry) && Members(Next(s, step).store.retry)
  {
    var h := s.held[step.i];
    var job := Failed(h.job);
    CompleteFrame(s.store, h.job, step.success, h.worker, step.now, step.at);
    if !step.success && job.retryCount < MAX_RETRIES {
      ZAddKeeps(s.store.retry, RetryDue(job, step.now), job, step.at);
    }
  }

  lemma SweepKeepsSorted(s: Store, now: int)
    requires Sorted(s.retry) && Members(s.retry)
    ensures Sorted(SweepSpec(s, now).retry) && Members(SweepSpec(s, now).retry)
  {
    KeepSorted(s.retry, (e: Entry) => !Due(e, Unix(now)));
    KeepMembers(s.retry, (e: Entry) => !Due(e, Unix(now)));
  }

  lemma StepKeepsSorted(s: State, step: Step)
    requires Sorted(s.store.retry) && Members(s.store.retry)
    ensures Sorted(Next(s, step).store.retry) && Members(Next(s, step).store.retry)
  {
    if !Enabled(s, step) { return; }
    match step
    case Defer(i, delay, now, at) =>
      ZAddKeeps(s.store.retry, Unix(now + delay), s.held[i].job, at);
    case Finish(_, _, _, _) =>
      FinishKeepsSorted(s, step);
    case Sweep(now) =>
      SweepKeepsSorted(s.store, now);
    case Reap(worker, now) =>
      ReapCount(s.store, worker, LiveHandles(s.store, worker, now), now, t => 0);
    case _ =>
  }

  lemma StepLowersRank(s: State, step: Step)
    requires Good(s) && Enabled(s, step) && !AddsWork(step) && !Idle(s, step)
    ensures Rank(Next(s, step)) < Rank(s)
  {
    match step
    case Take(order, worker, now, lag) => TakeRank(s, step);
    case Finish(i, success, now, at) => FinishRank(s, step);
    case Sweep(now) => SweepRank(s, now);
    case Crash(i, now) =>
      FinishWeights(s.held[i].job);
      DropHeld(s.held, i, HeldWeight);
  }

  /** In every run, each step that brings in no work and is not idle lowers the rank. */
  lemma RankDecreases(steps: seq<Step>, step: Step)
    requires Enabled(After(steps), step) && !AddsWork(step) && !Idle(After(steps), step)
    ensures Rank(Next(After(steps), step)) < Rank(After(steps))
  {
    RunsGood(steps);
    StepLowersRank(After(steps), step);
  }

  lemma CanFinish(s: State) returns (step: Step)
    requires Good(s) && s.held != []
    ensures Enabled(s, step) && step.Finish?
  {
    var job := Failed(s.held[0].job);
    WithoutKeeps(s.store.retry, job);
    assert Live(s.held[0].job);
    var at := SlotExists(Without(s.store.retry, job), RetryDue(job, s.clock + 1));
    step := Finish(0, false, s.clock + 1, at);
  }

  lemma CanSweep(s: State) returns (step: Step)
    requires Good(s) && s.store.retry != []
    ensures Enabled(s, step) && step.Sweep? && !Idle(s, step)
  {
    var e := s.store.retry[0];
    assert e in s.store.retry;
    step := Sweep(Max(s.clock + 1, e.due * SECOND));
    assert Due(e, Unix(step.now));
    assert e in DueEntries(s.store.retry, Unix(step.now));
  }

  lemma NothingLeft(s: State)
    requires s.held == [] && s.store.retry == [] && ReadyList(s.store, Unset) == []
    requires FirstNonEmpty(s.store, QUEUE_ORDER) == None
    ensures Rank(s) == 0
  {
    FirstNonEmptyFacts(s.store, QUEUE_ORDER);
    assert QUEUE_ORDER[0] == Critical && QUEUE_ORDER[1] == High && QUEUE_ORDER[2] == Normal && QUEUE_ORDER[3] == Low;
    assert EntryJobs(s.store.retry) == [] && HeldJobs(s.held) == [];
  }

  lemma CanTake(s: State) returns (step: Step)
    requires s.held == [] && s.store.retry == [] && ReadyList(s.store, Unset) == [] && Rank(s) > 0
    ensures Enabled(s, step) && step.Take? && step.order == QUEUE_ORDER
  {
    step := Take(QUEUE_ORDER, "worker", s.clock + 1, 0);
    if FirstNonEmpty(s.store, QUEUE_ORDER) == None { NothingLeft(s); }
  }

  /** As long as a copy waits or is held, some step that brings in no work lowers the rank. */
  lemma WorkGoesOn(steps: seq<Step>) returns (step: Step)
    requires Rank(After(steps)) > 0
    ensures Enabled(After(steps), step) && !AddsWork(step) && !step.Crash?
    ensures Rank(Next(After(steps), step)) < Rank(After(steps))
  {
    RunsGood(steps);
    PriorityFollowsScore(steps);
    var s := After(steps);
    if s.held != [] {
      step := CanFinish(s);
    } else if s.store.retry != [] {
      step := CanSweep(s);
    } else {
      step := CanTake(s);
    }
    StepLowersRank(s, step);
  }

  // ----- all work can be driven to its end -----

  /** No copy waits or is held. */
  predicate Idled(s: State) {
    s.held == [] && s.store.retry == [] && forall q: Priority :: ReadyList(s.store, q) == []
  }

  lemma WeighsNothing(jobs: seq<Job>, f: Tag -> nat)
    requires forall j :: j in jobs ==> One(j, f) > 0
    ensures CountJobs(jobs, f) == 0 <==> jobs == []
  {
    if jobs == [] {
    } else {
      assert jobs[|jobs| - 1] in jobs;
    }
  }

  /** Every live copy has a step to go. */
  lemma LiveWeighs(job: Job)
    requires Live(job)
    ensures One(job, RetryWeight) > 0 && One(job, ReadyWeight) > 0 && One(job, HeldWeight) > 0
  {
  }

  lemma ListLive(s: State, q: Priority)
    requires CountsInRange(s)
    ensures forall j :: j in ReadyList(s.store, q) ==> Live(j)
  {
    var p := (j: Job) => Live(j);
    forall j | j in ReadyList(s.store, q)
      ensures p(j)
    {
    }
  }

  lemma NoReady(s: State, q: Priority)
    requires CountsInRange(s) && ReadyCount(s.store.ready, ReadyWeight) == 0
    ensures ReadyList(s.store, q) == []
  {
    ListLive(s, q);
    forall j | j in ReadyList(s.store, q)
      ensures One(j, ReadyWeight) > 0
    {
      LiveWeighs(j);
    }
    assert CountJobs(ReadyList(s.store, q), ReadyWeight) == 0 by {
      match q case Critical => case High => case Normal => case Low => case Unset =>
    }
    WeighsNothing(ReadyList(s.store, q), ReadyWeight);
  }

  lemma NoRetry(s: State)
    requires CountsInRange(s) && RetryCount(s.store.retry, RetryWeight) == 0
    ensures s.store.retry == []
  {
    forall j | j in EntryJobs(s.store.retry)
      ensures One(j, RetryWeight) > 0
    {
      var i :| 0 <= i < |s.store.retry| && s.store.retry[i].job == j;
      assert s.store.retry[i] in s.store.retry;
      LiveWeighs(j);
    }
    WeighsNothing(EntryJobs(s.store.retry), RetryWeight);
  }

  lemma NoHeld(s: State)
    requires CountsInRange(s) && HeldCount(s.held, HeldWeight) == 0
    ensures s.held == []
  {
    forall j | j in HeldJobs(s.held)
      ensures One(j, HeldWeight) > 0
    {
      var i :| 0 <= i < |s.held| && s.held[i].job == j;
      assert Live(s.held[i].job);
      LiveWeighs(j);
    }
    WeighsNothing(HeldJobs(s.held), HeldWeight);
  }

  /** The rank is 0 exactly when no copy waits or is held. */
  lemma RankZeroIffIdled(steps: seq<Step>)
    ensures Rank(After(steps)) == 0 <==> Idled(After(steps))
  {
    var s := After(steps);
    RunsGood(steps);
    if Rank(s) == 0 {
      NoHeld(s);
      NoRetry(s);
      forall q: Priority
        ensures ReadyList(s.store, q) == []
      {
        NoReady(s, q);
      }
    } else if Idled(s) {
      FirstNonEmptyFacts(s.store, QUEUE_ORDER);
      NothingLeft(s);
    }
  }

  /** Steps that only work off what is there. */
  predicate WorksOff(more: seq<Step>) {
    forall i :: 0 <= i < |more| ==> !AddsWork(more[i]) && !more[i].Crash?
  }

  lemma OneStepNearer(steps: seq<Step>) returns (step: Step)
    requires Rank(After(steps)) > 0
    ensures !AddsWork(step) && !step.Crash? && Rank(After(steps + [step])) < Rank(After(steps))
  {
    step := WorkGoesOn(steps);
    AfterOne(steps, step);
  }

  lemma WorksOffCons(step: Step, rest: seq<Step>)
    requires !AddsWork(step) && !step.Crash? && WorksOff(rest)
    ensures WorksOff([step] + rest)
  {
  }

  /** From every reachable state some run of no more steps than the rank works everything off. */
  lemma {:induction false} DriveToIdle(steps: seq<Step>, rank: nat) returns (more: seq<Step>)
    requires rank == Rank(After(steps))
    ensures WorksOff(more) && |more| <= rank && Idled(After(steps + more))
    decreases rank
  {
    if rank == 0 {
      RankZeroIffIdled(steps);
      more := [];
      assert steps + more == steps;
    } else {
      var step := OneStepNearer(steps);
      var nearer := steps + [step];
      var rest := DriveToIdle(nearer, Rank(After(nearer)));
      more := [step] + rest;
      WorksOffCons(step, rest);
      assert steps + more == nearer + rest;
    }
  }

  lemma WorkingOffFiles(s: State, step: Step)
    requires !AddsWork(step) && !step.Crash?
    ensures var log := Next(s, step).log;
            && log.enqueued == s.log.enqueued && log.deferred == s.log.deferred
            && log.reaped == s.log.reaped && log.lost == s.log.lost
  {
  }

  lemma {:induction false} WorkingOffLog(steps: seq<Step>, more: seq<Step>)
    requires WorksOff(more)
    ensures var log, end := After(steps).log, After(steps + more).log;
            && end.enqueued == log.enqueued && end.deferred == log.deferred
            && end.reaped == log.reaped && end.lost == log.lost
  {
    if more == [] {
      assert steps + more == steps;
    } else {
      var n := |more| - 1;
      WorkingOffLog(steps, more[..n]);
      AfterMore(steps, more);
      WorkingOffFiles(After(steps + more[..n]), more[n]);
    }
  }

  lemma IdledCounts(s: State, f: Tag -> nat)
    requires Idled(s)
    ensures ReadyCount(s.store.ready, f) == 0 && RetryCount(s.store.retry, f) == 0 && HeldCount(s.held, f) == 0
  {
    assert forall q: Priority :: ListAt(s.store.ready, q) == ReadyList(s.store, q) == [];
    assert EntryJobs(s.store.retry) == [] && HeldJobs(s.held) == [];
  }

  /**
   * Work can always be driven to its end: every reachable state has a continuation without new work and
   * crashes, no longer than its rank, after which every copy there ever was is done, failed or lost before.
   */
  lemma DriveToEnd(steps: seq<Step>) returns (more: seq<Step>)
    ensures WorksOff(more) && |more| <= Rank(After(steps)) && Idled(After(steps + more))
    ensures forall id :: var log, end, f := After(steps).log, After(steps + more), IsJob(id);
              Sum(end.log.succeeded, f) + CountJobs(end.store.failed, f) + Sum(log.lost, f)
              == Sum(log.enqueued, f) + Sum(log.deferred, f) + Sum(log.reaped, f)
  {
    more := DriveToIdle(steps, Rank(After(steps)));
    WorkingOffLog(steps, more);
    forall id
      ensures var log, end, f := After(steps).log, After(steps + more), IsJob(id);
              Sum(end.log.succeeded, f) + CountJobs(end.store.failed, f) + Sum(log.lost, f)
              == Sum(log.enqueued, f) + Sum(log.deferred, f) + Sum(log.reaped, f)
    {
      CopiesAddUp(steps + more, IsJob(id));
      IdledCounts(After(steps + more), IsJob(id));
    }
  }

  /** Steps that bring in no work and are not idle, each of them possible. */
  predicate Productive(steps: seq<Step>, more: seq<Step>) {
    more == [] ||
    (var before, step := more[..|more| - 1], more[|more| - 1];
     && Productive(steps, before)
     && Enabled(After(steps + before), step) && !AddsWork(step) && !Idle(After(steps + before), step))
  }

  /** However the work is done, it is over after as many productive steps as the rank says. */
  lemma {:induction false} WorkIsBounded(steps: seq<Step>, more: seq<Step>)
    requires Productive(steps, more)
    ensures |more| + Rank(After(steps + more)) <= Rank(After(steps))
  {
    if more == [] {
      assert steps + more == steps;
    } else {
      var n := |more| - 1;
      WorkIsBounded(steps, more[..n]);
      AfterMore(steps, more);
      RankDecreases(steps + more[..n], more[n]);
    }
  }
}
