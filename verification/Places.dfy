/** What never changes about a job, and what its status says about its place. */
module Places {
  import opened Options
  import opened Jobs
  import opened Lists
  import opened Store
  import opened Frontier
  import opened Conservation

  // ----- ID and URL -----

  predicate Submitted(steps: seq<Step>, id: string, url: string) {
    exists i :: 0 <= i < |steps| && steps[i].Submit? && steps[i].job.id == id && steps[i].job.url == url
  }

  /** In every run each copy in a list, a record or a hand has the ID and URL of a job that was submitted. */
  lemma {:induction false} NothingRenamed(steps: seq<Step>)
    ensures Everywhere(After(steps), (j: Job) => Submitted(steps, j.id, j.url),
                       (e: Entry) => Submitted(steps, e.job.id, e.job.url))
  {
    if steps == [] {
    } else {
      var n := |steps| - 1;
      var before, step := steps[..n], steps[n];
      NothingRenamed(before);
      forall id, url | Submitted(before, id, url)
        ensures Submitted(steps, id, url)
      {
        var i :| 0 <= i < |before| && before[i].Submit? && before[i].job.id == id && before[i].job.url == url;
        assert steps[i] == before[i];
      }
      if step.Submit? { assert Submitted(steps, step.job.id, step.job.url); }
      StepKeepsEverywhere(After(before), step,
                          (j: Job) => Submitted(before, j.id, j.url),
                          (e: Entry) => Submitted(before, e.job.id, e.job.url),
                          (j: Job) => Submitted(steps, j.id, j.url),
                          (e: Entry) => Submitted(steps, e.job.id, e.job.url));
    }
  }

  // ----- statuses -----

  /** Ready jobs are ready, failed ones dead, and all others in flight, retries included. */
  ghost predicate StatusSaysWhere(s: State) {
    && ReadyAll(s.store.ready, (j: Job) => j.status == Status.Ready)
    && RecordsAll(s.store.records, (j: Job) => j.status == InFlight)
    && (forall e :: e in s.store.retry ==> e.job.status == InFlight)
    && (forall i :: 0 <= i < |s.held| ==> s.held[i].job.status == InFlight)
    && (forall j :: j in s.store.failed ==> j.status == Dead)
  }

  lemma TakeKeepsStatus(s: State, step: Step)
    requires step.Take? && Enabled(s, step) && StatusSaysWhere(s)
    ensures StatusSaysWhere(Next(s, step))
  {
    FirstNonEmptyFacts(s.store, step.order);
    PopKeeps(s.store.ready, FirstNonEmpty(s.store, step.order).value, (j: Job) => j.status == Status.Ready);
  }

  lemma FinishKeepsStatus(s: State, step: Step)
    requires step.Finish? && Enabled(s, step) && StatusSaysWhere(s)
    ensures StatusSaysWhere(Next(s, step))
  {
    var h, t := s.held[step.i], Next(s, step);
    CompleteFrame(s.store, h.job, step.success, h.worker, step.now, step.at);
    if !step.success && Failed(h.job).retryCount < MAX_RETRIES {
      ZAddKeepsAll(s.store.retry, RetryDue(Failed(h.job), step.now), Failed(h.job), step.at,
                   (e: Entry) => e.job.status == InFlight);
    }
  }

  lemma OtherKeepsStatus(s: State, step: Step)
    requires !step.Take? && !step.Finish? && Enabled(s, step) && StatusSaysWhere(s)
    requires step.Submit? ==> step.job.status == Status.Ready
    ensures StatusSaysWhere(Next(s, step))
  {
    var ready, taken := (j: Job) => j.status == Status.Ready, (j: Job) => j.status == InFlight;
    match step
    case Submit(job, now) => PushKeeps(s.store, Enqueued(job, now), ready);
    case Defer(i, delay, now, at) =>
      ZAddKeepsAll(s.store.retry, Unix(now + delay), s.held[i].job, at, (e: Entry) => e.job.status == InFlight);
    case Sweep(now) =>
      PromoteKeeps(s.store, DueEntries(s.store.retry, Unix(now)), now, ready);
      PromoteFrame(s.store, DueEntries(s.store.retry, Unix(now)), now);
    case Reap(worker, now) => ReapKeeps(s.store, worker, LiveHandles(s.store, worker, now), now, taken, ready);
    case Crash(_, _) =>
  }

  /** In every run of jobs that are submitted as they are created, the status says where a copy is. */
  lemma {:induction false} StatusFollowsPlace(steps: seq<Step>)
    requires forall i :: 0 <= i < |steps| && steps[i].Submit? ==> steps[i].job.status == Status.Ready
    ensures StatusSaysWhere(After(steps))
  {
    if steps == [] {
    } else {
      var before, step := steps[..|steps| - 1], steps[|steps| - 1];
      StatusFollowsPlace(before);
      if Enabled(After(before), step) {
        if step.Take? {
          TakeKeepsStatus(After(before), step);
        } else if step.Finish? {
          FinishKeepsStatus(After(before), step);
        } else {
          OtherKeepsStatus(After(before), step);
        }
      }
    }
  }
}
