/** The crawl frontier as a protocol: one queue, any number of workers, the retry sweep and the reaper. */
module Frontier {
  import opened Options
  import opened Jobs
  import opened Lists
  import opened Store

  /** A copy of a job in the hands of a worker; requeued once RequeueWithDelay has filed it again. */
  datatype Held = Held(job: Job, worker: string, requeued: bool)

  /** What a copy of a job is counted by. */
  datatype Tag = Tag(id: string, count: int)

  /** Everything that has happened so far. refiled and dead carry the count after the failure. */
  datatype Log = Log(
    enqueued: seq<Tag>, taken: seq<Tag>, deferred: seq<Tag>, reaped: seq<Tag>, succeeded: seq<Tag>,
    failures: seq<Tag>, refiled: seq<Tag>, dead: seq<Tag>, lost: seq<Tag>, firstFailure: map<string, int>)

  datatype State = State(store: Store, held: seq<Held>, clock: int, log: Log)

  const Start := State(Empty, [], 0, Log([], [], [], [], [], [], [], [], [], map[]))

  /**
   * One queue operation, with the time at which it happens. Submit is Enqueue of a new job, Take is
   * Dequeue, Defer is RequeueWithDelay for held copy i, Finish is CompleteJob for it, and Crash is a
   * worker that disappears with it.
   */
  datatype Step =
    | Submit(job: Job, now: int)
    | Take(order: seq<Priority>, worker: string, now: int, lag: int)
    | Defer(i: nat, delay: int, now: int, at: nat)
    | Finish(i: nat, success: bool, now: int, at: nat)
    | Sweep(now: int)
    | Reap(worker: string, now: int)
    | Crash(i: nat, now: int)

  function TagOf(job: Job): Tag {
    Tag(job.id, job.retryCount)
  }

  /** The clock moves between steps; workers hand in only what they hold. */
  predicate Enabled(s: State, step: Step) {
    && s.clock < step.now
    && match step
       case Submit(job, _) => job.retryCount == 0 && job.lastEnqueuedAt == None
       case Take(order, _, _, lag) => lag >= 0 && FirstNonEmpty(s.store, order) != None
       case Defer(i, delay, now, at) =>
         && delay >= 0 && i < |s.held| && !s.held[i].requeued
         && Slot(Without(s.store.retry, s.held[i].job), Unix(now + delay), at)
       case Finish(i, success, now, at) =>
         && i < |s.held| && s.held[i].job.retryCount >= 0 && (s.held[i].requeued ==> !success)
         && (!success && Failed(s.held[i].job).retryCount < MAX_RETRIES ==>
               Slot(Without(s.store.retry, Failed(s.held[i].job)), RetryDue(Failed(s.held[i].job), now), at))
       case Sweep(_) => true
       case Reap(_, _) => true
       case Crash(i, _) => i < |s.held|
  }

  function ReapedTags(s: Store, worker: string, ids: seq<string>, now: int): seq<Tag> {
    if ids == [] then []
    else
      var id, before := ids[|ids| - 1], ReapSpec(s, worker, ids[..|ids| - 1], now);
      ReapedTags(s, worker, ids[..|ids| - 1], now)
      + if Stale(before, id, now) then [TagOf(before.records[id].job)] else []
  }

  function LogFailure(log: Log, job: Job, now: int): Log {
    var tag := Tag(job.id, job.retryCount + 1);
    log.(failures := log.failures + [TagOf(job)],
         refiled := if tag.count < MAX_RETRIES then log.refiled + [tag] else log.refiled,
         dead := if tag.count < MAX_RETRIES then log.dead else log.dead + [tag],
         firstFailure := if job.id in log.firstFailure then log.firstFailure else log.firstFailure[job.id := now])
  }

  /** A step that is not enabled leaves everything as it is. */
  function Next(s: State, step: Step): State {
    if !Enabled(s, step) then s
    else
      match step
      case Submit(job, now) =>
        State(EnqueueSpec(s.store, job, now), s.held, now, s.log.(enqueued := s.log.enqueued + [TagOf(job)]))
      case Take(order, worker, now, lag) =>
        FirstNonEmptyFacts(s.store, order);
        var p := FirstNonEmpty(s.store, order).value;
        var job := Taken(ReadyList(s.store, p)[0], now);
        State(DequeueSpec(s.store, p, worker, now, lag), s.held + [Held(job, worker, false)], now,
              s.log.(taken := s.log.taken + [TagOf(job)]))
      case Defer(i, delay, now, at) =>
        var h := s.held[i];
        State(RequeueSpec(s.store, h.job, Unix(now + delay), at), s.held[i := h.(requeued := true)], now,
              s.log.(deferred := s.log.deferred + [TagOf(h.job)]))
      case Finish(i, success, now, at) =>
        var h := s.held[i];
        State(CompleteSpec(s.store, h.job, success, h.worker, now, at), RemoveAt(s.held, i), now,
              if success then s.log.(succeeded := s.log.succeeded + [TagOf(h.job)]) else LogFailure(s.log, h.job, now))
      case Sweep(now) =>
        State(SweepSpec(s.store, now), s.held, now, s.log)
      case Reap(worker, now) =>
        var ids := LiveHandles(s.store, worker, now);
        State(ReapSpec(s.store, worker, ids, now), s.held, now,
              s.log.(reaped := s.log.reaped + ReapedTags(s.store, worker, ids, now)))
      case Crash(i, now) =>
        State(s.store, RemoveAt(s.held, i), now, s.log.(lost := s.log.lost + [TagOf(s.held[i].job)]))
  }

  function TakenJob(s: State, step: Step): Job
    requires step.Take? && Enabled(s, step)
  {
    FirstNonEmptyFacts(s.store, step.order);
    Taken(ReadyList(s.store, FirstNonEmpty(s.store, step.order).value)[0], step.now)
  }

  /** The state after any run. */
  function After(steps: seq<Step>): State {
    if steps == [] then Start else Next(After(steps[..|steps| - 1]), steps[|steps| - 1])
  }

  lemma LastOfMore(steps: seq<Step>, more: seq<Step>)
    requires more != []
    ensures var all, n := steps + more, |steps + more| - 1;
            all != [] && all[..n] == steps + more[..|more| - 1] && all[n] == more[|more| - 1]
  {
  }

  lemma AfterOne(steps: seq<Step>, step: Step)
    ensures After(steps + [step]) == Next(After(steps), step)
  {
    assert (steps + [step])[..|steps|] == steps;
  }

  lemma AfterMore(steps: seq<Step>, more: seq<Step>)
    requires more != []
    ensures After(steps + more) == Next(After(steps + more[..|more| - 1]), more[|more| - 1])
  {
    LastOfMore(steps, more);
  }

  // ----- the life of a lone job -----

  predicate New(job: Job) {
    job.retryCount == 0 && job.lastEnqueuedAt == None
  }

  /** What is ready after its submission. */
  lemma SubmittedIsReady(job: Job)
    requires New(job)
    ensures var s, p := Next(Start, Submit(job, 1)), ScoreToPriority(job.baseScore);
            && s.clock == 1 && s.log == Start.log.(enqueued := [TagOf(job)]) && s.held == [] && s.store.retry == []
            && FirstNonEmpty(s.store, QUEUE_ORDER) == Some(p) && ReadyList(s.store, p) == [Enqueued(job, 1)]
  {
    var s := Next(Start, Submit(job, 1));
    assert s.store == PushReady(Empty, Enqueued(job, 1));
    OnlyList(s.store, Enqueued(job, 1));
  }

  lemma OnlyList(s: Store, job: Job)
    requires s == PushReady(Empty, job) && job.priority != Unset
    ensures FirstNonEmpty(s, QUEUE_ORDER) == Some(job.priority) && ReadyList(s, job.priority) == [job]
  {
    assert forall q: Priority :: ReadyList(s, q) == if q == job.priority then [job] else [];
    FirstNonEmptyFacts(s, QUEUE_ORDER);
    assert QUEUE_ORDER[0] == Critical && QUEUE_ORDER[1] == High && QUEUE_ORDER[2] == Normal && QUEUE_ORDER[3] == Low;
  }

  function LoneJob(job: Job): Job {
    Taken(Enqueued(job, 1), 2)
  }

  lemma LoneTake(job: Job, worker: string, lag: int)
    requires New(job) && lag >= 0
    ensures var s, take := Next(Start, Submit(job, 1)), Take(QUEUE_ORDER, worker, 2, lag);
            && Enabled(s, take) && TakenJob(s, take) == LoneJob(job)
            && Next(s, take).clock == 2 && Next(s, take).held == [Held(LoneJob(job), worker, false)]
            && Next(s, take).store.retry == []
            && Next(s, take).log == Start.log.(enqueued := [TagOf(job)], taken := [TagOf(job)])
  {
    SubmittedIsReady(job);
  }

  // ----- properties of every copy -----

  ghost predicate ReadyAll(ready: map<Priority, seq<Job>>, p: Job -> bool) {
    forall q: Priority, j :: j in ListAt(ready, q) ==> p(j)
  }

  ghost predicate RecordsAll(records: map<string, Record>, p: Job -> bool) {
    forall id :: id in records ==> p(records[id].job)
  }

  /** p of every copy in a ready list, a record or a worker's hands, r of every entry of the retry set. */
  ghost predicate Everywhere(s: State, p: Job -> bool, r: Entry -> bool) {
    && ReadyAll(s.store.ready, p)
    && (forall e :: e in s.store.retry ==> r(e))
    && (forall i :: 0 <= i < |s.held| ==> p(s.held[i].job))
    && RecordsAll(s.store.records, p)
  }

  /** What a step does to single copies takes p and r to p' and r'. */
  ghost predicate Carries(s: State, step: Step, p: Job -> bool, r: Entry -> bool, p': Job -> bool, r': Entry -> bool) {
    && (forall j :: p(j) ==> p'(j))
    && (forall e :: r(e) ==> r'(e))
    && match step
       case Submit(job, now) => p'(Enqueued(job, now))
       case Take(_, _, now, _) => forall j :: p(j) ==> p'(Taken(j, now))
       case Defer(i, delay, now, _) =>
         i < |s.held| && p(s.held[i].job) ==> r'(Entry(Unix(now + delay), s.held[i].job))
       case Finish(i, success, now, _) =>
         i < |s.held| && !success && p(s.held[i].job) && 0 <= s.held[i].job.retryCount < MAX_RETRIES - 1 ==>
           r'(Entry(RetryDue(Failed(s.held[i].job), now), Failed(s.held[i].job)))
       case Sweep(now) => forall e :: r(e) && Due(e, Unix(now)) ==> p'(Promoted(e.job, now))
       case Reap(_, now) => forall j :: p(j) ==> p'(Reaped(j, now))
       case Crash(_, _) => true
  }

  lemma PushKeeps(s: Store, job: Job, p: Job -> bool)
    requires ReadyAll(s.ready, p) && p(job)
    ensures ReadyAll(PushReady(s, job).ready, p)
  {
    forall q: Priority, j | j in ListAt(PushReady(s, job).ready, q)
      ensures p(j)
    {
      PushReadyList(s, job, q);
    }
  }

  lemma {:induction false} PromoteKeeps(s: Store, due: seq<Entry>, now: int, p: Job -> bool)
    requires ReadyAll(s.ready, p)
    requires forall e :: e in due ==> p(Promoted(e.job, now))
    ensures ReadyAll(PromoteAll(s, due, now).ready, p)
  {
    if due == [] {
    } else {
      assert due[|due| - 1] in due;
      var earlier := due[..|due| - 1];
      assert forall e :: e in earlier ==> e in due;
      PromoteKeeps(s, earlier, now, p);
      PushKeeps(PromoteAll(s, due[..|due| - 1], now), Promoted(due[|due| - 1].job, now), p);
    }
  }

  lemma {:induction false} PromoteFrame(s: Store, due: seq<Entry>, now: int)
    ensures PromoteAll(s, due, now) == s.(ready := PromoteAll(s, due, now).ready)
  {
    if due == [] {
    } else {
      PromoteFrame(s, due[..|due| - 1], now);
    }
  }

  lemma PopKeeps(ready: map<Priority, seq<Job>>, q: Priority, p: Job -> bool)
    requires ReadyAll(ready, p) && ListAt(ready, q) != []
    ensures ReadyAll(ready[q := ListAt(ready, q)[1..]], p) && p(ListAt(ready, q)[0])
  {
    var popped := ready[q := ListAt(ready, q)[1..]];
    assert ListAt(ready, q)[0] in ListAt(ready, q);
    forall q': Priority, j | j in ListAt(popped, q')
      ensures p(j)
    {
      assert j in ListAt(ready, q');
    }
  }

  lemma {:induction false} ReapKeeps(s: Store, worker: string, ids: seq<string>, now: int, p: Job -> bool,
                                       p': Job -> bool)
    requires ReadyAll(s.ready, p') && RecordsAll(s.records, p)
    requires forall j :: p(j) ==> p'(Reaped(j, now))
    ensures ReadyAll(ReapSpec(s, worker, ids, now).ready, p') && RecordsAll(ReapSpec(s, worker, ids, now).records, p)
    ensures ReapSpec(s, worker, ids, now).retry == s.retry && ReapSpec(s, worker, ids, now).failed == s.failed
  {
    if ids == [] {
    } else {
      var id, before := ids[|ids| - 1], ReapSpec(s, worker, ids[..|ids| - 1], now);
      ReapKeeps(s, worker, ids[..|ids| - 1], now, p, p');
      if Stale(before, id, now) {
        PushKeeps(DropRecord(DropHandle(before, worker, id, now), id), Reaped(before.records[id].job, now), p');
      }
    }
  }

  lemma Weaken(s: State, p: Job -> bool, r: Entry -> bool, p': Job -> bool, r': Entry -> bool)
    requires Everywhere(s, p, r) && (forall j :: p(j) ==> p'(j)) && (forall e :: r(e) ==> r'(e))
    ensures Everywhere(s, p', r')
  {
  }

  lemma TakeKeeps(s: State, step: Step, p: Job -> bool, r: Entry -> bool, p': Job -> bool, r': Entry -> bool)
    requires step.Take? && Enabled(s, step) && Everywhere(s, p, r) && Carries(s, step, p, r, p', r')
    ensures Everywhere(Next(s, step), p', r')
  {
    Weaken(s, p, r, p', r');
    FirstNonEmptyFacts(s.store, step.order);
    var q := FirstNonEmpty(s.store, step.order).value;
    PopKeeps(s.store.ready, q, p);
    PopKeeps(s.store.ready, q, p');
  }

  lemma ZAddKeepsAll(retry: seq<Entry>, due: int, job: Job, at: nat, r: Entry -> bool)
    requires at <= |Without(retry, job)| && (forall e :: e in retry ==> r(e)) && r(Entry(due, job))
    ensures forall e :: e in ZAdd(retry, due, job, at) ==> r(e)
  {
  }

  lemma DeferKeeps(s: State, step: Step, p: Job -> bool, r: Entry -> bool, p': Job -> bool, r': Entry -> bool)
    requires step.Defer? && Enabled(s, step) && Everywhere(s, p, r) && Carries(s, step, p, r, p', r')
    ensures Everywhere(Next(s, step), p', r')
  {
    Weaken(s, p, r, p', r');
    ZAddKeepsAll(s.store.retry, Unix(step.now + step.delay), s.held[step.i].job, step.at, r');
  }

  lemma CompleteFrame(s: Store, job: Job, success: bool, worker: string, now: int, at: nat)
    requires job.retryCount >= 0
    requires !success && Failed(job).retryCount < MAX_RETRIES ==> at <= |Without(s.retry, Failed(job))|
    ensures CompleteSpec(s, job, success, worker, now, at).ready == s.ready
    ensures CompleteSpec(s, job, success, worker, now, at).records == s.records - {job.id}
    ensures CompleteSpec(s, job, success, worker, now, at).retry ==
            if !success && Failed(job).retryCount < MAX_RETRIES
            then ZAdd(s.retry, RetryDue(Failed(job), now), Failed(job), at) else s.retry
    ensures CompleteSpec(s, job, success, worker, now, at).failed ==
            if !success && Failed(job).retryCount >= MAX_RETRIES then [Failed(job)] + s.failed else s.failed
  {
  }

  lemma FinishKeeps(s: State, step: Step, p: Job -> bool, r: Entry -> bool, p': Job -> bool, r': Entry -> bool)
    requires step.Finish? && Enabled(s, step) && Everywhere(s, p, r) && Carries(s, step, p, r, p', r')
    ensures Everywhere(Next(s, step), p', r')
  {
    Weaken(s, p, r, p', r');
    var h := s.held[step.i];
    CompleteFrame(s.store, h.job, step.success, h.worker, step.now, step.at);
    if !step.success && Failed(h.job).retryCount < MAX_RETRIES {
      ZAddKeepsAll(s.store.retry, RetryDue(Failed(h.job), step.now), Failed(h.job), step.at, r');
    }
    assert RecordsAll(s.store.records - {h.job.id}, p');
  }

  lemma SweepKeeps(s: State, now: int, p: Job -> bool, r: Entry -> bool, p': Job -> bool, r': Entry -> bool)
    requires Enabled(s, Sweep(now)) && Everywhere(s, p, r) && Carries(s, Sweep(now), p, r, p', r')
    ensures Everywhere(Next(s, Sweep(now)), p', r')
  {
    Weaken(s, p, r, p', r');
    var due := DueEntries(s.store.retry, Unix(now));
    PromoteKeeps(s.store, due, now, p');
    PromoteFrame(s.store, due, now);
  }

  /** What a step carries over for single copies holds everywhere afterwards. */
  lemma StepKeepsEverywhere(s: State, step: Step, p: Job -> bool, r: Entry -> bool, p': Job -> bool, r': Entry -> bool)
    requires Everywhere(s, p, r)
    requires if Enabled(s, step) then Carries(s, step, p, r, p', r')
             else (forall j :: p(j) ==> p'(j)) && (forall e :: r(e) ==> r'(e))
    ensures Everywhere(Next(s, step), p', r')
  {
    Weaken(s, p, r, p', r');
    if !Enabled(s, step) { return; }
    match step
    case Submit(job, now) =>
      PushKeeps(s.store, Enqueued(job, now), p');
    case Take(order, worker, now, lag) =>
      TakeKeeps(s, step, p, r, p', r');
    case Defer(i, delay, now, at) =>
      DeferKeeps(s, step, p, r, p', r');
    case Finish(i, success, now, at) =>
      FinishKeeps(s, step, p, r, p', r');
    case Sweep(now) =>
      SweepKeeps(s, now, p, r, p', r');
    case Reap(worker, now) =>
      ReapKeeps(s.store, worker, LiveHandles(s.store, worker, now), now, p, p');
    case Crash(i, now) =>
  }
}
