/** Where the copies of a job are: what is conserved over every run of the frontier. */
module Conservation {
  import opened Jobs
  import opened Lists
  import opened Store
  import opened Frontier

  // ----- counting copies by their tags -----

  function One(job: Job, f: Tag -> nat): nat {
    f(TagOf(job))
  }

  function CountJobs(jobs: seq<Job>, f: Tag -> nat): nat {
    if jobs == [] then 0 else CountJobs(jobs[..|jobs| - 1], f) + One(jobs[|jobs| - 1], f)
  }

  lemma {:induction false} CountJobsConcat(a: seq<Job>, b: seq<Job>, f: Tag -> nat)
    ensures CountJobs(a + b, f) == CountJobs(a, f) + CountJobs(b, f)
  {
    if b == [] {
      assert a + b == a;
    } else {
      var n := |b| - 1;
      assert (a + b)[..|a| + n] == a + b[..n];
      CountJobsConcat(a, b[..n], f);
    }
  }

  lemma CountJobsOne(job: Job, f: Tag -> nat)
    ensures CountJobs([job], f) == One(job, f)
  {
    assert [job][..0] == [];
  }

  lemma CountJobsMiddle(jobs: seq<Job>, rest: seq<Job>, a: seq<Job>, job: Job, b: seq<Job>, f: Tag -> nat)
    requires jobs == a + [job] + b && rest == a + b
    ensures CountJobs(jobs, f) == CountJobs(rest, f) + One(job, f)
  {
    CountJobsConcat(a + [job], b, f);
    CountJobsConcat(a, [job], f);
    CountJobsConcat(a, b, f);
    CountJobsOne(job, f);
  }

  lemma CountJobsInsert(jobs: seq<Job>, at: nat, job: Job, f: Tag -> nat)
    requires at <= |jobs|
    ensures CountJobs(jobs[..at] + [job] + jobs[at..], f) == CountJobs(jobs, f) + One(job, f)
  {
    CountJobsMiddle(jobs[..at] + [job] + jobs[at..], jobs, jobs[..at], job, jobs[at..], f);
  }

  lemma CountJobsRemove(jobs: seq<Job>, i: nat, f: Tag -> nat)
    requires i < |jobs|
    ensures CountJobs(jobs, f) == CountJobs(RemoveAt(jobs, i), f) + One(jobs[i], f)
  {
    SplitAt(jobs, i);
    CountJobsMiddle(jobs, RemoveAt(jobs, i), jobs[..i], jobs[i], jobs[i + 1..], f);
  }

  function EntryJobs(retry: seq<Entry>): seq<Job> {
    seq(|retry|, i requires 0 <= i < |retry| => retry[i].job)
  }

  function HeldJobs(held: seq<Held>): seq<Job> {
    seq(|held|, i requires 0 <= i < |held| => held[i].job)
  }

  /** Copies in the ready lists. */
  function ReadyCount(ready: map<Priority, seq<Job>>, f: Tag -> nat): nat {
    CountJobs(ListAt(ready, Critical), f) + CountJobs(ListAt(ready, High), f) + CountJobs(ListAt(ready, Normal), f)
    + CountJobs(ListAt(ready, Low), f) + CountJobs(ListAt(ready, Unset), f)
  }

  function RetryCount(retry: seq<Entry>, f: Tag -> nat): nat {
    CountJobs(EntryJobs(retry), f)
  }

  function HeldCount(held: seq<Held>, f: Tag -> nat): nat {
    CountJobs(HeldJobs(held), f)
  }

  /** Replacing one ready list. */
  lemma ReadyCountUpdate(ready: map<Priority, seq<Job>>, p: Priority, list: seq<Job>, f: Tag -> nat)
    ensures ReadyCount(ready[p := list], f) + CountJobs(ListAt(ready, p), f)
        == ReadyCount(ready, f) + CountJobs(list, f)
  {
    var updated := ready[p := list];
    forall q: Priority
      ensures ListAt(updated, q) == if q == p then list else ListAt(ready, q)
    {
    }
    match p
    case Critical => assert ListAt(updated, Critical) == list;
    case High => assert ListAt(updated, High) == list;
    case Normal => assert ListAt(updated, Normal) == list;
    case Low => assert ListAt(updated, Low) == list;
    case Unset => assert ListAt(updated, Unset) == list;
  }

  lemma PushCount(s: Store, job: Job, f: Tag -> nat)
    ensures ReadyCount(PushReady(s, job).ready, f) == ReadyCount(s.ready, f) + One(job, f)
  {
    var list := ReadyList(s, job.priority);
    ReadyCountUpdate(s.ready, job.priority, list + [job], f);
    CountJobsConcat(list, [job], f);
    CountJobsOne(job, f);
  }

  lemma PopCount(ready: map<Priority, seq<Job>>, q: Priority, f: Tag -> nat)
    requires ListAt(ready, q) != []
    ensures ReadyCount(ready, f) == ReadyCount(ready[q := ListAt(ready, q)[1..]], f) + One(ListAt(ready, q)[0], f)
  {
    var list := ListAt(ready, q);
    ReadyCountUpdate(ready, q, list[1..], f);
    CountJobsRemove(list, 0, f);
    assert RemoveAt(list, 0) == list[1..];
  }

  lemma ZAddCount(retry: seq<Entry>, due: int, job: Job, at: nat, f: Tag -> nat)
    requires at <= |Without(retry, job)| && forall e :: e in retry ==> e.job != job
    ensures RetryCount(ZAdd(retry, due, job, at), f) == RetryCount(retry, f) + One(job, f)
  {
    KeepAll(retry, (e: Entry) => e.job != job);
    var jobs := EntryJobs(retry);
    assert EntryJobs(ZAdd(retry, due, job, at)) == jobs[..at] + [job] + jobs[at..];
    CountJobsInsert(jobs, at, job, f);
  }

  lemma RetryCountFirst(retry: seq<Entry>, f: Tag -> nat)
    requires retry != []
    ensures RetryCount(retry, f) == One(retry[0].job, f) + RetryCount(retry[1..], f)
  {
    CountJobsRemove(EntryJobs(retry), 0, f);
    assert RemoveAt(EntryJobs(retry), 0) == EntryJobs(retry[1..]);
  }

  lemma {:induction false} SweepCount(retry: seq<Entry>, second: int, f: Tag -> nat)
    ensures RetryCount(retry, f)
         == RetryCount(DueEntries(retry, second), f) + RetryCount(LaterEntries(retry, second), f)
  {
    if retry == [] {
    } else {
      var e, rest := retry[0], retry[1..];
      SweepCount(rest, second, f);
      RetryCountFirst(retry, f);
      if Due(e, second) {
        assert DueEntries(retry, second) == [e] + DueEntries(rest, second);
        assert LaterEntries(retry, second) == LaterEntries(rest, second);
        RetryCountFirst(DueEntries(retry, second), f);
      } else {
        assert LaterEntries(retry, second) == [e] + LaterEntries(rest, second);
        assert DueEntries(retry, second) == DueEntries(rest, second);
        RetryCountFirst(LaterEntries(retry, second), f);
      }
    }
  }

  lemma {:induction false} PromoteCount(s: Store, due: seq<Entry>, now: int, f: Tag -> nat)
    ensures ReadyCount(PromoteAll(s, due, now).ready, f) == ReadyCount(s.ready, f) + RetryCount(due, f)
  {
    if due == [] {
    } else {
      var n := |due| - 1;
      PromoteCount(s, due[..n], now, f);
      PushCount(PromoteAll(s, due[..n], now), Promoted(due[n].job, now), f);
      assert EntryJobs(due)[..n] == EntryJobs(due[..n]);
    }
  }

  lemma {:induction false} ReapCount(s: Store, worker: string, ids: seq<string>, now: int, f: Tag -> nat)
    ensures ReadyCount(ReapSpec(s, worker, ids, now).ready, f)
        == ReadyCount(s.ready, f) + Sum(ReapedTags(s, worker, ids, now), f)
    ensures ReapSpec(s, worker, ids, now).retry == s.retry && ReapSpec(s, worker, ids, now).failed == s.failed
  {
    if ids == [] {
    } else {
      var id, before := ids[|ids| - 1], ReapSpec(s, worker, ids[..|ids| - 1], now);
      ReapCount(s, worker, ids[..|ids| - 1], now, f);
      if Stale(before, id, now) {
        var dropped := DropRecord(DropHandle(before, worker, id, now), id);
        assert dropped.ready == before.ready;
        PushCount(dropped, Reaped(before.records[id].job, now), f);
        SumAppend(ReapedTags(s, worker, ids[..|ids| - 1], now), TagOf(before.records[id].job), f);
      } else {
        assert ReapedTags(s, worker, ids, now) == ReapedTags(s, worker, ids[..|ids| - 1], now);
      }
    }
  }

  // ----- no two members of the retry set coincide -----

  /**
   * Stamps make copies distinct: every dequeue stamps its copy with its own time, and a copy is
   * filed in the retry set at most once unchanged and once with its count raised.
   */
  ghost predicate Stamped(s: State) {
    && (forall i :: 0 <= i < |s.held| ==> s.held[i].job.visibilityStart <= s.clock)
    && (forall e :: e in s.store.retry ==> e.job.visibilityStart <= s.clock)
    && (forall i, j :: 0 <= i < j < |s.held| ==> s.held[i].job.visibilityStart != s.held[j].job.visibilityStart)
    && (forall e, i :: e in s.store.retry && 0 <= i < |s.held| ==> SameStamp(e.job, s.held[i]))
  }

  predicate SameStamp(job: Job, h: Held) {
    job.visibilityStart == h.job.visibilityStart ==> h.requeued && job.retryCount == h.job.retryCount
  }

  lemma StepKeepsStamped(s: State, step: Step)
    requires Stamped(s)
    ensures Stamped(Next(s, step))
  {
    if !Enabled(s, step) { return; }
    match step
    case Submit(job, now) =>
    case Take(order, worker, now, lag) =>
      TakeStamped(s, step);
    case Defer(i, delay, now, at) =>
      DeferStamped(s, step);
    case Finish(i, success, now, at) =>
      FinishStamped(s, step);
    case Sweep(now) =>
      PromoteFrame(s.store, DueEntries(s.store.retry, Unix(now)), now);
    case Reap(worker, now) =>
      ReapCount(s.store, worker, LiveHandles(s.store, worker, now), now, t => 0);
    case Crash(i, now) =>
  }

  lemma TakeStamped(s: State, step: Step)
    requires Stamped(s) && step.Take? && Enabled(s, step)
    ensures Stamped(Next(s, step))
  {
    FirstNonEmptyFacts(s.store, step.order);
    var t := Next(s, step);
    assert t.store.retry == s.store.retry && t.held[..|s.held|] == s.held;
    assert t.held[|s.held|].job.visibilityStart == step.now;
  }

  lemma DeferStamped(s: State, step: Step)
    requires Stamped(s) && step.Defer? && Enabled(s, step)
    ensures Stamped(Next(s, step))
  {
  }

  lemma FinishRetry(s: State, step: Step)
    requires step.Finish? && Enabled(s, step)
    ensures Next(s, step).held == RemoveAt(s.held, step.i) && Next(s, step).clock == step.now
    ensures forall e :: e in Next(s, step).store.retry ==>
              e in s.store.retry || e.job.visibilityStart == s.held[step.i].job.visibilityStart
  {
    var h := s.held[step.i];
    CompleteFrame(s.store, h.job, step.success, h.worker, step.now, step.at);
  }

  lemma FinishStamped(s: State, step: Step)
    requires Stamped(s) && step.Finish? && Enabled(s, step)
    ensures Stamped(Next(s, step))
  {
    FinishRetry(s, step);
    StampedWithout(s, Next(s, step), step.i);
  }

  lemma StampedWithout(s: State, t: State, i: nat)
    requires Stamped(s) && i < |s.held| && t.held == RemoveAt(s.held, i) && s.clock <= t.clock
    requires forall e :: e in t.store.retry ==>
               e in s.store.retry || e.job.visibilityStart == s.held[i].job.visibilityStart
    ensures Stamped(t)
  {
    assert forall k :: 0 <= k < |t.held| ==> t.held[k] == s.held[if k < i then k else k + 1];
    FinishSameStamp(s, s.held[i], i, t.store.retry, t.held);
  }

  lemma FinishSameStamp(s: State, h: Held, i: nat, retry: seq<Entry>, held: seq<Held>)
    requires Stamped(s) && i < |s.held| && h == s.held[i] && held == RemoveAt(s.held, i)
    requires forall e :: e in retry ==> e in s.store.retry || e.job.visibilityStart == h.job.visibilityStart
    ensures forall e, k :: e in retry && 0 <= k < |held| ==> SameStamp(e.job, held[k])
  {
    forall e, k | e in retry && 0 <= k < |held|
      ensures SameStamp(e.job, held[k])
    {
      assert held[k] == s.held[if k < i then k else k + 1];
    }
  }

  /** Whatever is filed in the retry set is not there yet. */
  lemma FiledIsNew(s: State, step: Step)
    requires Stamped(s) && Enabled(s, step)
    ensures step.Defer? ==> forall e :: e in s.store.retry ==> e.job != s.held[step.i].job
    ensures step.Finish? ==> forall e :: e in s.store.retry ==> e.job != Failed(s.held[step.i].job)
  {
    if step.Defer? || step.Finish? {
      forall e | e in s.store.retry
        ensures SameStamp(e.job, s.held[step.i])
      {
      }
    }
  }

  // ----- the balance of tags, for every weight -----

  /** Copies that wait were filed and not yet taken; copies taken are held or were handed in. */
  ghost predicate Balanced(s: State, f: Tag -> nat) {
    && ReadyCount(s.store.ready, f) + RetryCount(s.store.retry, f) + Sum(s.log.taken, f)
       == Sum(s.log.enqueued, f) + Sum(s.log.deferred, f) + Sum(s.log.reaped, f) + Sum(s.log.refiled, f)
    && HeldCount(s.held, f) + Sum(s.log.succeeded, f) + Sum(s.log.failures, f) + Sum(s.log.lost, f)
       == Sum(s.log.taken, f)
    && CountJobs(s.store.failed, f) == Sum(s.log.dead, f)
  }

  function Bump(t: Tag): Tag {
    Tag(t.id, t.count + 1)
  }

  /** The weight of a tag after one more failure. */
  function Raised(f: Tag -> nat): Tag -> nat {
    (t: Tag) => f(Bump(t))
  }

  /** A failure files the copy again or buries it, with its count raised. */
  ghost predicate FailuresFiled(log: Log, f: Tag -> nat) {
    Sum(log.refiled, f) + Sum(log.dead, f) == Sum(log.failures, Raised(f))
  }

  lemma TakeBalance(s: State, step: Step, f: Tag -> nat)
    requires step.Take? && Enabled(s, step) && Balanced(s, f)
    ensures Balanced(Next(s, step), f)
  {
    FirstNonEmptyFacts(s.store, step.order);
    var q, t := FirstNonEmpty(s.store, step.order).value, Next(s, step);
    var job := Taken(ReadyList(s.store, q)[0], step.now);
    PopCount(s.store.ready, q, f);
    SumAppend(s.log.taken, TagOf(job), f);
    assert HeldJobs(t.held) == HeldJobs(s.held) + [job];
    CountJobsConcat(HeldJobs(s.held), [job], f);
    CountJobsOne(job, f);
  }

  lemma DeferCounts(s: State, step: Step, f: Tag -> nat)
    requires step.Defer? && Enabled(s, step)
    requires forall e :: e in s.store.retry ==> e.job != s.held[step.i].job
    ensures var job, t := s.held[step.i].job, Next(s, step);
            && t.store == s.store.(retry := t.store.retry)
            && t.log == s.log.(deferred := s.log.deferred + [TagOf(job)])
            && RetryCount(t.store.retry, f) == RetryCount(s.store.retry, f) + One(job, f)
            && HeldCount(t.held, f) == HeldCount(s.held, f)
  {
    ZAddCount(s.store.retry, Unix(step.now + step.delay), s.held[step.i].job, step.at, f);
    MarkHeld(s.held, step.i);
  }

  lemma DeferBalance(s: State, step: Step, f: Tag -> nat)
    requires step.Defer? && Enabled(s, step) && Balanced(s, f)
    requires forall e :: e in s.store.retry ==> e.job != s.held[step.i].job
    ensures Balanced(Next(s, step), f)
  {
    DeferCounts(s, step, f);
    SumAppend(s.log.deferred, TagOf(s.held[step.i].job), f);
  }

  lemma MarkHeld(held: seq<Held>, i: nat)
    requires i < |held|
    ensures HeldJobs(held[i := held[i].(requeued := true)]) == HeldJobs(held)
  {
  }

  lemma DropHeld(held: seq<Held>, i: nat, f: Tag -> nat)
    requires i < |held|
    ensures HeldCount(held, f) == HeldCount(RemoveAt(held, i), f) + One(held[i].job, f)
  {
    assert HeldJobs(RemoveAt(held, i)) == RemoveAt(HeldJobs(held), i);
    CountJobsRemove(HeldJobs(held), i, f);
  }

  lemma SuccessBalance(s: State, step: Step, f: Tag -> nat)
    requires step.Finish? && step.success && Enabled(s, step) && Balanced(s, f)
    ensures Balanced(Next(s, step), f)
  {
    var h := s.held[step.i];
    DropHeld(s.held, step.i, f);
    CompleteFrame(s.store, h.job, true, h.worker, step.now, step.at);
    SumAppend(s.log.succeeded, TagOf(h.job), f);
  }

  lemma FailureBalance(s: State, step: Step, f: Tag -> nat)
    requires step.Finish? && !step.success && Enabled(s, step) && Balanced(s, f)
    requires forall e :: e in s.store.retry ==> e.job != Failed(s.held[step.i].job)
    ensures Balanced(Next(s, step), f)
  {
    var h, t := s.held[step.i], Next(s, step);
    var job := Failed(h.job);
    DropHeld(s.held, step.i, f);
    CompleteFrame(s.store, h.job, false, h.worker, step.now, step.at);
    assert t.log == LogFailure(s.log, h.job, step.now);
    FailureLogged(s.log, h.job, step.now, f);
    if job.retryCount < MAX_RETRIES {
      assert RetryCount(t.store.retry, f) == RetryCount(s.store.retry, f) + One(job, f) by {
        ZAddCount(s.store.retry, RetryDue(job, step.now), job, step.at, f);
      }
    } else {
      assert CountJobs(t.store.failed, f) == CountJobs(s.store.failed, f) + One(job, f) by {
        CountJobsConcat([job], s.store.failed, f);
        CountJobsOne(job, f);
      }
    }
  }

  lemma FailureLogged(log: Log, job: Job, now: int, f: Tag -> nat)
    ensures var log', one := LogFailure(log, job, now), One(Failed(job), f);
            && Sum(log'.failures, f) == Sum(log.failures, f) + One(job, f)
            && Sum(log'.refiled, f) == Sum(log.refiled, f) + (if Failed(job).retryCount < MAX_RETRIES then one else 0)
            && Sum(log'.dead, f) == Sum(log.dead, f) + (if Failed(job).retryCount < MAX_RETRIES then 0 else one)
  {
    var tag := Tag(job.id, job.retryCount + 1);
    assert TagOf(Failed(job)) == tag;
    SumAppend(log.failures, TagOf(job), f);
    if tag.count < MAX_RETRIES { SumAppend(log.refiled, tag, f); } else { SumAppend(log.dead, tag, f); }
  }

  lemma StepKeepsBalance(s: State, step: Step, f: Tag -> nat)
    requires Stamped(s) && Balanced(s, f)
    ensures Balanced(Next(s, step), f)
  {
    if !Enabled(s, step) { return; }
    FiledIsNew(s, step);
    match step
    case Submit(job, now) =>
      PushCount(s.store, Enqueued(job, now), f);
      SumAppend(s.log.enqueued, TagOf(job), f);
    case Take(order, worker, now, lag) =>
      TakeBalance(s, step, f);
    case Defer(i, delay, now, at) =>
      DeferBalance(s, step, f);
    case Finish(i, success, now, at) =>
      if success { SuccessBalance(s, step, f); } else { FailureBalance(s, step, f); }
    case Sweep(now) =>
      var due := DueEntries(s.store.retry, Unix(now));
      PromoteFrame(s.store, due, now);
      PromoteCount(s.store, due, now, f);
      SweepCount(s.store.retry, Unix(now), f);
    case Reap(worker, now) =>
      var ids := LiveHandles(s.store, worker, now);
      ReapCount(s.store, worker, ids, now, f);
      SumConcat(s.log.reaped, ReapedTags(s.store, worker, ids, now), f);
    case Crash(i, now) =>
      DropHeld(s.held, i, f);
      SumAppend(s.log.lost, TagOf(s.held[i].job), f);
  }

  lemma FailureFiled(log: Log, job: Job, now: int, f: Tag -> nat)
    requires FailuresFiled(log, f)
    ensures FailuresFiled(LogFailure(log, job, now), f)
  {
    var tag := Tag(job.id, job.retryCount + 1);
    assert Bump(TagOf(job)) == tag;
    assert Raised(f)(TagOf(job)) == f(tag);
    SumAppend(log.failures, TagOf(job), Raised(f));
    if tag.count < MAX_RETRIES { SumAppend(log.refiled, tag, f); } else { SumAppend(log.dead, tag, f); }
  }

  lemma StepKeepsFailuresFiled(s: State, step: Step, f: Tag -> nat)
    requires FailuresFiled(s.log, f)
    ensures FailuresFiled(Next(s, step).log, f)
  {
    if Enabled(s, step) && step.Finish? && !step.success {
      FailureFiled(s.log, s.held[step.i].job, step.now, f);
    }
  }

  lemma {:induction false} RunsBalanced(steps: seq<Step>, f: Tag -> nat)
    ensures Stamped(After(steps)) && Balanced(After(steps), f) && FailuresFiled(After(steps).log, f)
  {
    if steps == [] {
    } else {
      var before, step := After(steps[..|steps| - 1]), steps[|steps| - 1];
      RunsBalanced(steps[..|steps| - 1], f);
      StepKeepsStamped(before, step);
      StepKeepsBalance(before, step, f);
      StepKeepsFailuresFiled(before, step, f);
    }
  }

  lemma {:induction false} CountSame(tags: seq<Tag>, f: Tag -> nat, g: Tag -> nat)
    requires forall t :: t in tags ==> f(t) == g(t)
    ensures Sum(tags, f) == Sum(tags, g)
  {
    if tags == [] {
    } else {
      CountSame(tags[..|tags| - 1], f, g);
    }
  }

  /** The copies of the jobs chosen by c, wherever they are. */
  function Copies(s: State, f: Tag -> nat): nat {
    ReadyCount(s.store.ready, f) + RetryCount(s.store.retry, f) + HeldCount(s.held, f)
    + Sum(s.log.succeeded, f) + CountJobs(s.store.failed, f) + Sum(s.log.lost, f)
  }

  /** f weighs a copy by its job alone. */
  ghost predicate ByJob(f: Tag -> nat) {
    forall t: Tag :: f(Bump(t)) == f(t)
  }

  /**
   * In every run, for every choice or weighting of jobs: copies in ready lists, retry set, workers' hands, done,
   * failed and lost in crashes add up exactly to enqueues, rate-limited requeues and reaps.
   */
  lemma CopiesAddUp(steps: seq<Step>, f: Tag -> nat)
    requires ByJob(f)
    ensures Copies(After(steps), f) ==
            Sum(After(steps).log.enqueued, f) + Sum(After(steps).log.deferred, f) + Sum(After(steps).log.reaped, f)
  {
    RunsBalanced(steps, f);
    CountSame(After(steps).log.failures, f, Raised(f));
  }

  function IsJob(id: string): Tag -> nat {
    (t: Tag) => if t.id == id then 1 else 0
  }

  /** Without requeues and reaps of a job that was enqueued once, there is exactly one copy of it. */
  lemma OneCopy(steps: seq<Step>, id: string)
    requires Sum(After(steps).log.enqueued, IsJob(id)) == 1
    requires Sum(After(steps).log.deferred, IsJob(id)) == 0 && Sum(After(steps).log.reaped, IsJob(id)) == 0
    ensures Copies(After(steps), IsJob(id)) == 1
  {
    CopiesAddUp(steps, IsJob(id));
  }

  // ----- a run with two copies -----

  /** A refused fetch: the worker requeues the job and then completes it as failed. */
  function RefusedRun(job: Job, worker: string, lag: int): seq<Step> {
    [Submit(job, 1), Take(QUEUE_ORDER, worker, 2, lag), Defer(0, SECOND, 3, 0), Finish(0, false, 4, 1)]
  }

  lemma RefusedRunStates(job: Job, worker: string, lag: int)
    ensures var run := RefusedRun(job, worker, lag);
            After(run) == Next(Next(Next(Next(Start, run[0]), run[1]), run[2]), run[3])
  {
    var run := RefusedRun(job, worker, lag);
    assert run == [] + [run[0]] + [run[1]] + [run[2]] + [run[3]];
    AfterOne([], run[0]);
    AfterOne([] + [run[0]], run[1]);
    AfterOne([] + [run[0]] + [run[1]], run[2]);
    AfterOne([] + [run[0]] + [run[1]] + [run[2]], run[3]);
  }

  lemma RefusedTail(s: State, job: Job, worker: string)
    requires s.clock == 2 && s.held == [Held(job, worker, false)] && s.store.retry == [] && job.retryCount == 0
    ensures var t := Next(s, Defer(0, SECOND, 3, 0));
            && t.log == s.log.(deferred := s.log.deferred + [TagOf(job)]) && t.held == [Held(job, worker, true)]
            && t.store.retry == [Entry(1, job)] && t.clock == 3
  {
    assert Without(s.store.retry, job) == [];
    assert [] + [Entry(1, job)] + [] == [Entry(1, job)];
  }

  lemma RefusedEnd(s: State, job: Job, worker: string)
    requires s.clock == 3 && s.held == [Held(job, worker, true)] && s.store.retry == [Entry(1, job)]
        && job.retryCount == 0
    ensures var t := Next(s, Finish(0, false, 4, 1));
            t.log.deferred == s.log.deferred && t.log.enqueued == s.log.enqueued && t.log.reaped == s.log.reaped
            && t.store.retry == [Entry(1, job), Entry(2, Failed(job))]
  {
    assert Backoff(1) == 2 * SECOND;
    assert RetryDue(Failed(job), 4) == 2;
    assert Without(s.store.retry, Failed(job)) == s.store.retry by {
      KeepAll(s.store.retry, (e: Entry) => e.job != Failed(job));
    }
    CompleteFrame(s.store, job, false, worker, 4, 1);
  }

  /** After it the job is in the retry set twice, as it was and with its failure counted. */
  lemma RefusedTwice(job: Job, worker: string, lag: int)
    requires New(job) && lag >= 0
    ensures var end := After(RefusedRun(job, worker, lag));
            && end.store.retry == [Entry(1, LoneJob(job)), Entry(2, Failed(LoneJob(job)))]
            && Copies(end, IsJob(job.id)) == 2
  {
    var run := RefusedRun(job, worker, lag);
    RefusedRunStates(job, worker, lag);
    LoneTake(job, worker, lag);
    var s := Next(Next(Start, run[0]), run[1]);
    RefusedTail(s, LoneJob(job), worker);
    RefusedEnd(Next(s, run[2]), LoneJob(job), worker);
    RefusedCopies(run, job);
  }

  lemma RefusedCopies(run: seq<Step>, job: Job)
    requires After(run).log.enqueued == [TagOf(job)] && After(run).log.deferred == [TagOf(job)]
        && After(run).log.reaped == []
    ensures Copies(After(run), IsJob(job.id)) == 2
  {
    CopiesAddUp(run, IsJob(job.id));
    SumOne(TagOf(job), IsJob(job.id));
  }
}
