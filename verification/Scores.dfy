/** Scores and priorities of the copies of a job, over every run of the frontier. */
module Scores {
  import opened Options
  import opened Jobs
  import opened Lists
  import opened Store
  import opened Rules
  import opened Frontier

  // ----- priority follows score -----

  predicate Consistent(job: Job) {
    job.priority == ScoreToPriority(job.baseScore)
  }

  /** Every ready list holds jobs of its own priority only. */
  ghost predicate WellFiled(ready: map<Priority, seq<Job>>) {
    forall q: Priority, j :: j in ListAt(ready, q) ==> j.priority == q
  }

  lemma PushWellFiled(s: Store, job: Job)
    requires WellFiled(s.ready)
    ensures WellFiled(PushReady(s, job).ready)
  {
    forall q: Priority, j | j in ListAt(PushReady(s, job).ready, q)
      ensures j.priority == q
    {
      PushReadyList(s, job, q);
    }
  }

  lemma PopWellFiled(ready: map<Priority, seq<Job>>, p: Priority)
    requires WellFiled(ready) && ListAt(ready, p) != []
    ensures WellFiled(ready[p := ListAt(ready, p)[1..]])
  {
    var popped := ready[p := ListAt(ready, p)[1..]];
    forall q: Priority, j | j in ListAt(popped, q)
      ensures j.priority == q
    {
      assert j in ListAt(ready, q);
    }
  }

  lemma {:induction false} PromoteWellFiled(s: Store, due: seq<Entry>, now: int)
    requires WellFiled(s.ready)
    ensures WellFiled(PromoteAll(s, due, now).ready)
  {
    if due == [] {
    } else {
      PromoteWellFiled(s, due[..|due| - 1], now);
      PushWellFiled(PromoteAll(s, due[..|due| - 1], now), Promoted(due[|due| - 1].job, now));
    }
  }

  lemma {:induction false} ReapWellFiled(s: Store, worker: string, ids: seq<string>, now: int)
    requires WellFiled(s.ready)
    ensures WellFiled(ReapSpec(s, worker, ids, now).ready)
  {
    if ids == [] {
    } else {
      var id, before := ids[|ids| - 1], ReapSpec(s, worker, ids[..|ids| - 1], now);
      ReapWellFiled(s, worker, ids[..|ids| - 1], now);
      if Stale(before, id, now) {
        PushWellFiled(DropRecord(DropHandle(before, worker, id, now), id), Reaped(before.records[id].job, now));
      }
    }
  }

  ghost predicate InOrder(s: State) {
    Everywhere(s, (j: Job) => Consistent(j), (e: Entry) => Consistent(e.job)) && WellFiled(s.store.ready)
  }

  lemma StepKeepsOrder(s: State, step: Step)
    requires InOrder(s)
    ensures InOrder(Next(s, step))
  {
    var p, r := (j: Job) => Consistent(j), (e: Entry) => Consistent(e.job);
    StepKeepsEverywhere(s, step, p, r, p, r);
    if Enabled(s, step) { StepKeepsWellFiled(s, step); }
  }

  lemma StepKeepsWellFiled(s: State, step: Step)
    requires WellFiled(s.store.ready) && Enabled(s, step)
    ensures WellFiled(Next(s, step).store.ready)
  {
    match step
    case Submit(job, now) =>
      PushWellFiled(s.store, Enqueued(job, now));
    case Take(order, worker, now, lag) =>
      FirstNonEmptyFacts(s.store, order);
      PopWellFiled(s.store.ready, FirstNonEmpty(s.store, order).value);
    case Finish(i, success, now, at) =>
      CompleteFrame(s.store, s.held[i].job, success, s.held[i].worker, now, at);
    case Sweep(now) =>
      PromoteWellFiled(s.store, DueEntries(s.store.retry, Unix(now)), now);
    case Reap(worker, now) =>
      ReapWellFiled(s.store, worker, LiveHandles(s.store, worker, now), now);
    case _ =>
  }

  /**
   * In every run each stored copy has the priority of its score, lies in the ready list of that
   * priority, and none is without a priority.
   */
  lemma {:induction false} PriorityFollowsScore(steps: seq<Step>)
    ensures InOrder(After(steps)) && ReadyList(After(steps).store, Unset) == []
  {
    if steps == [] {
    } else {
      PriorityFollowsScore(steps[..|steps| - 1]);
      StepKeepsOrder(After(steps[..|steps| - 1]), steps[|steps| - 1]);
    }
    NoneUnset(After(steps));
  }

  lemma ListedHasPriority(s: State, q: Priority, job: Job)
    requires InOrder(s) && job in ListAt(s.store.ready, q)
    ensures q == ScoreToPriority(job.baseScore)
  {
    var p := (j: Job) => Consistent(j);
    assert p(job);
  }

  lemma NoneUnset(s: State)
    requires InOrder(s)
    ensures ReadyList(s.store, Unset) == []
  {
    var list := ListAt(s.store.ready, Unset);
    if |list| > 0 { ListedHasPriority(s, Unset, list[0]); }
  }

  /** In points: each ready list holds the jobs of its own range of scores, and nothing else. */
  lemma ListedByScore(steps: seq<Step>, p: Priority, job: Job)
    requires job in ReadyList(After(steps).store, p)
    ensures ClassOf(p, job.baseScore)
  {
    PriorityFollowsScore(steps);
    ListedHasPriority(After(steps), p, job);
    PriorityInPoints(job.baseScore);
  }

  // ----- bounds on scores -----

  /** The highest score of a copy that has failed k times, outside the retry set. */
  function Ceiling(start: int, k: nat): int {
    if k == 0 then start else Lowered(Ceiling(start, k - 1), k) + 30
  }

  /** The k-th failure costs 10 k points, but leaves at least 10. */
  function Lowered(score: int, k: nat): int {
    Max(score - 10 * k, 10)
  }

  lemma CeilingBound(start: int, k: nat)
    requires k <= 4
    ensures Ceiling(start, k) <= Max(start, 20) + 30
  {
    assert Ceiling(start, 1) == Lowered(start, 1) + 30;
    assert Ceiling(start, 2) == Lowered(Ceiling(start, 1), 2) + 30;
    assert Ceiling(start, 3) == Lowered(Ceiling(start, 2), 3) + 30;
    assert Ceiling(start, 4) == Lowered(Ceiling(start, 3), 4) + 30;
  }

  /** Stamped by an enqueue no later than the clock. */
  predicate Dated(job: Job, clock: int) {
    job.lastEnqueuedAt != None && job.lastEnqueuedAt.value <= clock
  }

  /** A copy of job id outside the retry set keeps below the ceiling of its level. */
  predicate Below(job: Job, id: string, start: int, clock: int) {
    job.id == id ==>
      && 0 <= job.retryCount <= 4 && 0 <= job.baseScore <= Ceiling(start, job.retryCount)
      && Dated(job, clock)
  }

  /** A copy of job id in the retry set has just been lowered. */
  predicate BelowInRetry(job: Job, id: string, start: int, clock: int) {
    job.id == id ==> 1 <= job.retryCount <= 4 && Dated(job, clock)
                     && 0 <= job.baseScore <= Lowered(Ceiling(start, job.retryCount - 1), job.retryCount)
  }

  ghost predicate AllBelow(s: State, id: string, start: int) {
    Everywhere(s, (j: Job) => Below(j, id, start, s.clock), (e: Entry) => BelowInRetry(e.job, id, start, s.clock))
  }

  lemma AgingBound(score: int, now: int, last: Option<int>)
    requires last != None && last.value <= now
    ensures score <= ApplyAging(score, Since(now, last)) <= score + 30
  {
  }

  lemma FailedBelow(job: Job, id: string, start: int, clock: int)
    requires Below(job, id, start, clock) && 0 <= job.retryCount < 4
    ensures BelowInRetry(Failed(job), id, start, clock)
  {
  }

  lemma PromotedBelow(job: Job, id: string, start: int, clock: int, now: int)
    requires BelowInRetry(job, id, start, clock) && clock <= now
    ensures Below(Promoted(job, now), id, start, now)
  {
    if job.id == id { AgingBound(job.baseScore, now, job.lastEnqueuedAt); }
  }

  /** Never requeued for rate limiting. */
  predicate NeverDeferred(log: Log, id: string) {
    forall t :: t in log.deferred ==> t.id != id
  }

  lemma StepKeepsBelow(s: State, step: Step, id: string, start: int)
    requires AllBelow(s, id, start) && NeverDeferred(Next(s, step).log, id)
    requires step.Submit? && step.job.id == id ==> 0 <= step.job.baseScore <= start
    ensures AllBelow(Next(s, step), id, start)
  {
    if !Enabled(s, step) { return; }
    var now := step.now;
    var p, r := (j: Job) => Below(j, id, start, s.clock), (e: Entry) => BelowInRetry(e.job, id, start, s.clock);
    var p', r' := (j: Job) => Below(j, id, start, now), (e: Entry) => BelowInRetry(e.job, id, start, now);
    match step {
      case Defer(i, _, _, _) =>
        assert TagOf(s.held[i].job) in Next(s, step).log.deferred;
      case Finish(i, success, _, _) =>
        if p(s.held[i].job) && 0 <= s.held[i].job.retryCount < 4 { FailedBelow(s.held[i].job, id, start, now); }
      case Sweep(_) =>
        forall e | r(e) ensures p'(Promoted(e.job, now)) { PromotedBelow(e.job, id, start, s.clock, now); }
      case _ =>
    }
    StepKeepsEverywhere(s, step, p, r, p', r');
  }

  /** Every enqueue of job id came with a score from 0 to start. */
  predicate StartsWithin(steps: seq<Step>, id: string, start: int) {
    forall i :: 0 <= i < |steps| && steps[i].Submit? && steps[i].job.id == id ==> 0 <= steps[i].job.baseScore <= start
  }

  lemma {:induction false} RunsBelow(steps: seq<Step>, id: string, start: int)
    requires StartsWithin(steps, id, start) && NeverDeferred(After(steps).log, id)
    ensures AllBelow(After(steps), id, start)
  {
    if steps == [] {
    } else {
      var n := |steps| - 1;
      DeferredGrows(After(steps[..n]), steps[n], id);
      RunsBelow(steps[..n], id, start);
      StepKeepsBelow(After(steps[..n]), steps[n], id, start);
    }
  }

  lemma DeferredGrows(s: State, step: Step, id: string)
    requires NeverDeferred(Next(s, step).log, id)
    ensures NeverDeferred(s.log, id)
  {
    forall t | t in s.log.deferred
      ensures t.id != id
    {
      assert t in Next(s, step).log.deferred;
    }
  }

  /**
   * A job enqueued with a score from 0 to start and never requeued for rate limiting keeps, through
   * all retries, a score between 0 and max(start, 20) + 30.
   */
  lemma ScoreBounded(steps: seq<Step>, id: string, start: int)
    requires StartsWithin(steps, id, start) && NeverDeferred(After(steps).log, id)
    ensures Everywhere(After(steps), (j: Job) => j.id == id ==> 0 <= j.baseScore <= Max(start, 20) + 30,
                       (e: Entry) => e.job.id == id ==> 0 <= e.job.baseScore <= Max(start, 20) + 30)
  {
    RunsBelow(steps, id, start);
    CeilingBound(start, 0);
    CeilingBound(start, 1);
    CeilingBound(start, 2);
    CeilingBound(start, 3);
    CeilingBound(start, 4);
    var s := After(steps);
    forall j | Below(j, id, start, s.clock)
      ensures j.id == id ==> 0 <= j.baseScore <= Max(start, 20) + 30
    {
      if j.id == id { CeilingBound(start, j.retryCount); }
    }
    forall e: Entry | BelowInRetry(e.job, id, start, s.clock)
      ensures e.job.id == id ==> 0 <= e.job.baseScore <= Max(start, 20) + 30
    {
      if e.job.id == id { CeilingBound(start, e.job.retryCount); }
    }
    Weaken(s, (j: Job) => Below(j, id, start, s.clock), (e: Entry) => BelowInRetry(e.job, id, start, s.clock),
           (j: Job) => j.id == id ==> 0 <= j.baseScore <= Max(start, 20) + 30,
           (e: Entry) => e.job.id == id ==> 0 <= e.job.baseScore <= Max(start, 20) + 30);
  }

  // ----- scores stay non-negative, rate limiting or not -----

  predicate NonNegative(job: Job, id: string, clock: int) {
    job.id == id ==> 0 <= job.baseScore && Dated(job, clock)
  }

  lemma {:induction false} ScoreNonNegative(steps: seq<Step>, id: string, start: int)
    requires StartsWithin(steps, id, start)
    ensures var s := After(steps);
            Everywhere(s, (j: Job) => NonNegative(j, id, s.clock), (e: Entry) => NonNegative(e.job, id, s.clock))
  {
    if steps == [] {
    } else {
      var n := |steps| - 1;
      ScoreNonNegative(steps[..n], id, start);
      StepKeepsNonNegative(After(steps[..n]), steps[n], id);
    }
  }

  lemma StepKeepsNonNegative(s: State, step: Step, id: string)
    requires Everywhere(s, (j: Job) => NonNegative(j, id, s.clock), (e: Entry) => NonNegative(e.job, id, s.clock))
    requires step.Submit? && step.job.id == id ==> 0 <= step.job.baseScore
    ensures var t := Next(s, step);
            Everywhere(t, (j: Job) => NonNegative(j, id, t.clock), (e: Entry) => NonNegative(e.job, id, t.clock))
  {
    if !Enabled(s, step) { return; }
    var now := step.now;
    var p, r := (j: Job) => NonNegative(j, id, s.clock), (e: Entry) => NonNegative(e.job, id, s.clock);
    var p', r' := (j: Job) => NonNegative(j, id, now), (e: Entry) => NonNegative(e.job, id, now);
    if step.Sweep? {
      forall e | r(e)
        ensures p'(Promoted(e.job, now))
      {
        if e.job.id == id { AgingBound(e.job.baseScore, now, e.job.lastEnqueuedAt); }
      }
    }
    StepKeepsEverywhere(s, step, p, r, p', r');
  }

  // ----- how far failures can lower a score -----

  /** What the first k failures cost together: 10, 30, 60, 100 points. */
  function Cost(k: int): int {
    5 * k * (k + 1)
  }

  predicate Above(job: Job, id: string, start: int, clock: int) {
    job.id == id ==>
      0 <= job.retryCount <= 4 && job.baseScore >= start - Cost(job.retryCount) && Dated(job, clock)
  }

  lemma FailedAbove(job: Job, id: string, start: int, clock: int)
    requires Above(job, id, start, clock) && 0 <= job.retryCount < 4 && start >= 100
    ensures Above(Failed(job), id, start, clock)
  {
    assert Cost(1) == 10 && Cost(2) == 30 && Cost(3) == 60 && Cost(4) == 100;
  }

  lemma StepKeepsAbove(s: State, step: Step, id: string, start: int)
    requires start >= 100 && (step.Submit? && step.job.id == id ==> step.job.baseScore >= start)
    requires Everywhere(s, (j: Job) => Above(j, id, start, s.clock), (e: Entry) => Above(e.job, id, start, s.clock))
    ensures var t := Next(s, step);
            Everywhere(t, (j: Job) => Above(j, id, start, t.clock), (e: Entry) => Above(e.job, id, start, t.clock))
  {
    if !Enabled(s, step) { return; }
    var now := step.now;
    var p, r := (j: Job) => Above(j, id, start, s.clock), (e: Entry) => Above(e.job, id, start, s.clock);
    var p', r' := (j: Job) => Above(j, id, start, now), (e: Entry) => Above(e.job, id, start, now);
    match step {
      case Finish(i, success, _, _) =>
        if p(s.held[i].job) && 0 <= s.held[i].job.retryCount < 4 { FailedAbove(s.held[i].job, id, start, now); }
      case Sweep(_) =>
        forall e | r(e)
          ensures p'(Promoted(e.job, now))
        {
          if e.job.id == id { AgingBound(e.job.baseScore, now, e.job.lastEnqueuedAt); }
        }
      case _ =>
    }
    StepKeepsEverywhere(s, step, p, r, p', r');
  }

  /**
   * A job enqueued with at least 100 points loses no more than 10 points for its first failure, 20 for the
   * second, and so on, whether it is rate limited and reaped or not.
   */
  lemma {:induction false} ScoreFloor(steps: seq<Step>, id: string, start: int)
    requires start >= 100
    requires forall i :: 0 <= i < |steps| && steps[i].Submit? && steps[i].job.id == id ==>
               steps[i].job.baseScore >= start
    ensures var s := After(steps);
            Everywhere(s, (j: Job) => Above(j, id, start, s.clock), (e: Entry) => Above(e.job, id, start, s.clock))
  {
    if steps == [] {
    } else {
      var n := |steps| - 1;
      ScoreFloor(steps[..n], id, start);
      StepKeepsAbove(After(steps[..n]), steps[n], id, start);
    }
  }
}
