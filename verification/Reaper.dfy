/** What the reaper can and cannot bring back. */
module Reaper {
  import opened Options
  import opened Jobs
  import opened Lists
  import opened Store
  import opened Frontier
  import opened Conservation

  // ----- the window in which a record is stale -----

  /** Every record expires at most lag after its job becomes stale. */
  ghost predicate Expiring(s: Store, lag: int) {
    forall id :: id in s.records ==>
      s.records[id].expires <= s.records[id].job.visibilityStart + PROCESSING_TIMEOUT + lag
  }

  predicate LagsWithin(steps: seq<Step>, lag: int) {
    forall i :: 0 <= i < |steps| && steps[i].Take? ==> steps[i].lag <= lag
  }

  lemma {:induction false} ReapKeepsExpiring(s: Store, worker: string, ids: seq<string>, now: int, lag: int)
    requires Expiring(s, lag)
    ensures Expiring(ReapSpec(s, worker, ids, now), lag)
  {
    if ids == [] {
    } else {
      ReapKeepsExpiring(s, worker, ids[..|ids| - 1], now, lag);
    }
  }

  lemma StepKeepsExpiring(s: State, step: Step, lag: int)
    requires Expiring(s.store, lag) && (step.Take? ==> step.lag <= lag)
    ensures Expiring(Next(s, step).store, lag)
  {
    if !Enabled(s, step) { return; }
    match step
    case Take(order, worker, now, _) =>
      FirstNonEmptyFacts(s.store, order);
    case Finish(i, success, now, at) =>
      CompleteFrame(s.store, s.held[i].job, success, s.held[i].worker, now, at);
    case Sweep(now) =>
      PromoteFrame(s.store, DueEntries(s.store.retry, Unix(now)), now);
    case Reap(worker, now) =>
      ReapKeepsExpiring(s.store, worker, LiveHandles(s.store, worker, now), now, lag);
    case _ =>
  }

  lemma {:induction false} RunsExpiring(steps: seq<Step>, lag: int)
    requires LagsWithin(steps, lag)
    ensures Expiring(After(steps).store, lag)
  {
    if steps == [] {
    } else {
      RunsExpiring(steps[..|steps| - 1], lag);
      StepKeepsExpiring(After(steps[..|steps| - 1]), steps[|steps| - 1], lag);
    }
  }

  /**
   * A record lives as long as the reaper waits, so what the reaper finds stale is found in the short
   * time between stamping a job and writing its record: at most lag past the timeout.
   */
  lemma ReaperWindow(steps: seq<Step>, lag: int, id: string, now: int)
    requires LagsWithin(steps, lag) && Stale(After(steps).store, id, now)
    ensures var age := now - After(steps).store.records[id].job.visibilityStart;
            PROCESSING_TIMEOUT <= age < PROCESSING_TIMEOUT + lag
  {
    RunsExpiring(steps, lag);
  }

  lemma {:induction false} NothingStale(s: Store, worker: string, ids: seq<string>, now: int)
    requires Expiring(s, 0)
    ensures ReapSpec(s, worker, ids, now) == s && ReapedTags(s, worker, ids, now) == []
  {
    if ids == [] {
    } else {
      NothingStale(s, worker, ids[..|ids| - 1], now);
    }
  }

  /** If records are written the moment a job is stamped, the reaper never does anything. */
  lemma {:induction false} ReaperNeverActs(steps: seq<Step>)
    requires LagsWithin(steps, 0)
    ensures After(steps).log.reaped == []
    ensures forall worker, now ::
              ReapSpec(After(steps).store, worker, LiveHandles(After(steps).store, worker, now), now)
                == After(steps).store
  {
    RunsExpiring(steps, 0);
    forall worker, now
      ensures ReapSpec(After(steps).store, worker, LiveHandles(After(steps).store, worker, now), now)
          == After(steps).store
    {
      NothingStale(After(steps).store, worker, LiveHandles(After(steps).store, worker, now), now);
    }
    if steps == [] {
    } else {
      var before, step := After(steps[..|steps| - 1]), steps[|steps| - 1];
      ReaperNeverActs(steps[..|steps| - 1]);
      if Enabled(before, step) && step.Reap? {
        RunsExpiring(steps[..|steps| - 1], 0);
        NothingStale(before.store, step.worker, LiveHandles(before.store, step.worker, step.now), step.now);
      }
    }
  }

  // ----- when a copy is put back -----

  /** How many copies of a job the reaper of a worker would put back. */
  function PutBack(s: Store, worker: string, id: string, now: int): nat {
    Sum(ReapedTags(s, worker, LiveHandles(s, worker, now), now), IsJob(id))
  }

  /** Records are kept under the ID of their job. */
  predicate Keyed(s: Store) {
    forall id :: id in s.records ==> s.records[id].job.id == id
  }

  predicate SameRecord(s: Store, t: Store, id: string) {
    (id in t.records <==> id in s.records) && (id in s.records ==> t.records[id] == s.records[id])
  }

  lemma ReapOneRecord(s: Store, worker: string, one: string, now: int, id: string)
    requires Keyed(s)
    ensures Keyed(ReapOne(s, worker, one, now))
    ensures if one == id && Stale(s, id, now) then id !in ReapOne(s, worker, one, now).records
            else SameRecord(s, ReapOne(s, worker, one, now), id)
  {
  }

  lemma OneMoreReaped(s: Store, worker: string, ids: seq<string>, now: int, id: string)
    requires ids != [] && Keyed(ReapSpec(s, worker, ids[..|ids| - 1], now))
    ensures var earlier, one := ids[..|ids| - 1], ids[|ids| - 1];
            Sum(ReapedTags(s, worker, ids, now), IsJob(id)) == Sum(ReapedTags(s, worker, earlier, now), IsJob(id))
              + if one == id && Stale(ReapSpec(s, worker, earlier, now), id, now) then 1 else 0
  {
    var earlier, one := ids[..|ids| - 1], ids[|ids| - 1];
    var before, tags := ReapSpec(s, worker, earlier, now), ReapedTags(s, worker, earlier, now);
    if Stale(before, one, now) {
      SumAppend(tags, TagOf(before.records[one].job), IsJob(id));
    } else {
      assert ReapedTags(s, worker, ids, now) == tags;
    }
  }

  /** A stale record is put back once, and is gone then; others stay as they are. */
  lemma {:induction false} ReapOfId(s: Store, worker: string, ids: seq<string>, now: int, id: string)
    requires Keyed(s)
    ensures Sum(ReapedTags(s, worker, ids, now), IsJob(id)) == if id in ids && Stale(s, id, now) then 1 else 0
    ensures Keyed(ReapSpec(s, worker, ids, now))
    ensures if id in ids && Stale(s, id, now) then id !in ReapSpec(s, worker, ids, now).records
            else SameRecord(s, ReapSpec(s, worker, ids, now), id)
  {
    if ids == [] {
    } else {
      var earlier, one := ids[..|ids| - 1], ids[|ids| - 1];
      ReapOfId(s, worker, earlier, now, id);
      assert id in ids <==> id in earlier || id == one by { assert ids == earlier + [one]; }
      ReapOneRecord(ReapSpec(s, worker, earlier, now), worker, one, now, id);
      OneMoreReaped(s, worker, ids, now, id);
    }
  }

  lemma ReapOneKeepsListed(s: Store, worker: string, one: string, now: int, p: Priority, job: Job)
    requires job in ReadyList(s, p)
    ensures job in ReadyList(ReapOne(s, worker, one, now), p)
  {
    if Stale(s, one, now) {
      PushReadyList(DropRecord(DropHandle(s, worker, one, now), one), Reaped(s.records[one].job, now), p);
    }
  }

  /** What is put back is the job of the record, ready and newly stamped, but otherwise as it was taken. */
  lemma {:induction false} ReapedIsListed(s: Store, worker: string, ids: seq<string>, now: int, id: string)
    requires Keyed(s) && id in ids && Stale(s, id, now)
    ensures var job := s.records[id].job.(status := Status.Ready, lastEnqueuedAt := Some(now));
            job in ReadyList(ReapSpec(s, worker, ids, now), job.priority)
  {
    var earlier, one := ids[..|ids| - 1], ids[|ids| - 1];
    var before := ReapSpec(s, worker, earlier, now);
    var job := s.records[id].job.(status := Status.Ready, lastEnqueuedAt := Some(now));
    assert ids == earlier + [one];
    if id in earlier {
      ReapedIsListed(s, worker, earlier, now, id);
      ReapOneKeepsListed(before, worker, one, now, job.priority, job);
    } else {
      ReapOfId(s, worker, earlier, now, id);
      PushReadyList(DropRecord(DropHandle(before, worker, id, now), id), job, job.priority);
    }
  }

  lemma StepKeepsKeyed(s: State, step: Step)
    requires Keyed(s.store)
    ensures Keyed(Next(s, step).store)
  {
    if !Enabled(s, step) { return; }
    match step
    case Finish(i, success, now, at) =>
      CompleteFrame(s.store, s.held[i].job, success, s.held[i].worker, now, at);
    case Sweep(now) =>
      PromoteFrame(s.store, DueEntries(s.store.retry, Unix(now)), now);
    case Reap(worker, now) =>
      ReapOfId(s.store, worker, LiveHandles(s.store, worker, now), now, "");
    case _ =>
  }

  lemma {:induction false} RunsKeyed(steps: seq<Step>)
    ensures Keyed(After(steps).store)
  {
    if steps == [] {
    } else {
      RunsKeyed(steps[..|steps| - 1]);
      StepKeepsKeyed(After(steps[..|steps| - 1]), steps[|steps| - 1]);
    }
  }

  /**
   * The record of a job is the one written for a take at time t with the given lag, and until that
   * record expires the worker still has a live handle for it.
   */
  predicate Recorded(s: State, worker: string, id: string, t: int, lag: int) {
    var end := t + lag + PROCESSING_TIMEOUT;
    && id in s.store.records
    && s.store.records[id].job.visibilityStart == t && s.store.records[id].expires == end
    && (s.clock < end ==>
          && worker in s.store.processing && id in s.store.processing[worker].ids
          && s.store.processing[worker].expires >= end)
  }

  /** When the reaper puts a recorded copy back. */
  predicate InWindow(now: int, t: int, lag: int) {
    t + PROCESSING_TIMEOUT <= now < t + lag + PROCESSING_TIMEOUT
  }

  lemma PutBackIff(s: State, worker: string, id: string, t: int, lag: int, now: int)
    requires Recorded(s, worker, id, t, lag) && Keyed(s.store) && s.clock < now
    ensures PutBack(s.store, worker, id, now) == if InWindow(now, t, lag) then 1 else 0
  {
    ReapOfId(s.store, worker, LiveHandles(s.store, worker, now), now, id);
  }

  lemma TakeIsRecorded(s: State, step: Step)
    requires step.Take? && Enabled(s, step)
    ensures Recorded(Next(s, step), step.worker, TakenJob(s, step).id, step.now, step.lag)
  {
  }

  /**
   * The step leaves record and handle of the copy to themselves: it neither takes nor finishes nor
   * puts back a copy of this job, and what the worker takes meanwhile is written after the record, before it expires.
   */
  predicate Undisturbed(s: State, step: Step, worker: string, id: string, t: int, lag: int) {
    var end := t + lag + PROCESSING_TIMEOUT;
    Enabled(s, step) ==>
      match step
      case Take(_, w, now, l) => TakenJob(s, step).id != id && (w == worker && now < end ==> t + lag <= now + l < end)
      case Finish(i, _, _, _) => s.held[i].job.id != id
      case Reap(w, now) => PutBack(s.store, w, id, now) == 0
      case _ => true
  }

  lemma {:induction false} RemoveOther(ids: seq<string>, other: string, id: string)
    requires id in ids && other != id
    ensures id in RemoveFirst(ids, other)
  {
    if ids[0] == other {
      assert id in ids[1..];
    } else if ids[0] != id {
      assert id in ids[1..];
      RemoveOther(ids[1..], other, id);
    }
  }

  lemma DropKeepsHandle(s: Store, w: string, other: string, now: int, worker: string, id: string, end: int)
    requires other != id && now < end
    requires worker in s.processing && id in s.processing[worker].ids && s.processing[worker].expires >= end
    ensures var t := DropHandle(s, w, other, now);
            worker in t.processing && id in t.processing[worker].ids && t.processing[worker].expires >= end
  {
    if w == worker { RemoveOther(s.processing[worker].ids, other, id); }
  }

  lemma {:induction false} ReapKeepsHandle(s: Store, w: string, ids: seq<string>, now: int, worker: string,
                                             id: string, end: int)
    requires Keyed(s) && Sum(ReapedTags(s, w, ids, now), IsJob(id)) == 0 && now < end
    requires worker in s.processing && id in s.processing[worker].ids && s.processing[worker].expires >= end
    ensures var t := ReapSpec(s, w, ids, now);
            worker in t.processing && id in t.processing[worker].ids && t.processing[worker].expires >= end
  {
    if ids == [] {
    } else {
      var earlier, one := ids[..|ids| - 1], ids[|ids| - 1];
      var before := ReapSpec(s, w, earlier, now);
      ReapOfId(s, w, earlier, now, id);
      if Stale(before, one, now) {
        ReapOfId(s, w, earlier, now, one);
        SumAppend(ReapedTags(s, w, earlier, now), TagOf(before.records[one].job), IsJob(id));
        ReapKeepsHandle(s, w, earlier, now, worker, id, end);
        DropKeepsHandle(before, w, one, now, worker, id, end);
      } else {
        assert ReapedTags(s, w, ids, now) == ReapedTags(s, w, earlier, now);
        ReapKeepsHandle(s, w, earlier, now, worker, id, end);
      }
    }
  }

  lemma TakeKeepsRecorded(s: State, step: Step, worker: string, id: string, t: int, lag: int)
    requires Recorded(s, worker, id, t, lag) && step.Take? && Enabled(s, step)
    requires Undisturbed(s, step, worker, id, t, lag)
    ensures Recorded(Next(s, step), worker, id, t, lag)
  {
    var was := LiveHandles(s.store, step.worker, step.now + step.lag);
    var job := TakenJob(s, step);
    if step.worker == worker && step.now < t + lag + PROCESSING_TIMEOUT {
      assert id in was;
      assert id in [job.id] + was;
    }
  }

  lemma FinishKeepsRecorded(s: State, step: Step, worker: string, id: string, t: int, lag: int)
    requires Recorded(s, worker, id, t, lag) && step.Finish? && Enabled(s, step)
    requires Undisturbed(s, step, worker, id, t, lag)
    ensures Recorded(Next(s, step), worker, id, t, lag)
  {
    var h := s.held[step.i];
    CompleteFrame(s.store, h.job, step.success, h.worker, step.now, step.at);
    var end := t + lag + PROCESSING_TIMEOUT;
    if step.now < end { DropKeepsHandle(s.store, h.worker, h.job.id, step.now, worker, id, end); }
  }

  lemma StepKeepsRecorded(s: State, step: Step, worker: string, id: string, t: int, lag: int)
    requires Recorded(s, worker, id, t, lag) && Keyed(s.store) && Undisturbed(s, step, worker, id, t, lag)
    ensures Recorded(Next(s, step), worker, id, t, lag)
  {
    if !Enabled(s, step) { return; }
    match step
    case Take(_, _, _, _) => TakeKeepsRecorded(s, step, worker, id, t, lag);
    case Finish(_, _, _, _) => FinishKeepsRecorded(s, step, worker, id, t, lag);
    case Sweep(now) =>
      PromoteFrame(s.store, DueEntries(s.store.retry, Unix(now)), now);
    case Reap(w, now) =>
      var ids, end := LiveHandles(s.store, w, now), t + lag + PROCESSING_TIMEOUT;
      ReapOfId(s.store, w, ids, now, id);
      if now < end { ReapKeepsHandle(s.store, w, ids, now, worker, id, end); }
    case _ =>
  }

  predicate UndisturbedRun(steps: seq<Step>, more: seq<Step>, worker: string, id: string, t: int, lag: int) {
    more == [] ||
    (UndisturbedRun(steps, more[..|more| - 1], worker, id, t, lag) &&
     Undisturbed(After(steps + more[..|more| - 1]), more[|more| - 1], worker, id, t, lag))
  }

  lemma {:induction false} StaysRecorded(steps: seq<Step>, more: seq<Step>, worker: string, id: string,
                                           t: int, lag: int)
    requires Recorded(After(steps), worker, id, t, lag) && UndisturbedRun(steps, more, worker, id, t, lag)
    ensures Recorded(After(steps + more), worker, id, t, lag)
  {
    if more == [] {
      assert steps + more == steps;
    } else {
      var n := |more| - 1;
      StaysRecorded(steps, more[..n], worker, id, t, lag);
      AfterMore(steps, more);
      RunsKeyed(steps + more[..n]);
      StepKeepsRecorded(After(steps + more[..n]), more[n], worker, id, t, lag);
    }
  }

  lemma ReapAddsPutBack(s: State, worker: string, id: string, now: int)
    requires s.clock < now
    ensures var t, n := Next(s, Reap(worker, now)), PutBack(s.store, worker, id, now);
            && Sum(t.log.reaped, IsJob(id)) == Sum(s.log.reaped, IsJob(id)) + n
            && ReadyCount(t.store.ready, IsJob(id)) == ReadyCount(s.store.ready, IsJob(id)) + n
  {
    var ids := LiveHandles(s.store, worker, now);
    SumConcat(s.log.reaped, ReapedTags(s.store, worker, ids, now), IsJob(id));
    ReapCount(s.store, worker, ids, now, IsJob(id));
  }

  /**
   * The reaper exactly: in every run, a copy taken at time t whose record was written lag later is put
   * back, once, if the worker's reaper comes between the timeout and lag after it, and at no other time.
   */
  lemma PutBackExactlyInWindow(steps: seq<Step>, take: Step, more: seq<Step>, now: int)
    requires take.Take? && Enabled(After(steps), take)
    requires UndisturbedRun(steps + [take], more, take.worker, TakenJob(After(steps), take).id, take.now, take.lag)
    requires After(steps + [take] + more).clock < now
    ensures var s, f := After(steps + [take] + more), IsJob(TakenJob(After(steps), take).id);
            var t, n := Next(s, Reap(take.worker, now)), if InWindow(now, take.now, take.lag) then 1 else 0;
            && Sum(t.log.reaped, f) == Sum(s.log.reaped, f) + n
            && ReadyCount(t.store.ready, f) == ReadyCount(s.store.ready, f) + n
    ensures InWindow(now, take.now, take.lag) <==>
              take.now + 300_000_000_000 <= now < take.now + take.lag + 300_000_000_000
  {
    var id, s := TakenJob(After(steps), take).id, After(steps + [take] + more);
    AfterOne(steps, take);
    TakeIsRecorded(After(steps), take);
    StaysRecorded(steps + [take], more, take.worker, id, take.now, take.lag);
    RunsKeyed(steps + [take] + more);
    PutBackIff(s, take.worker, id, take.now, take.lag, now);
    ReapAddsPutBack(s, take.worker, id, now);
  }

  function LateRun(job: Job, worker: string, lag: int): seq<Step> {
    [Submit(job, 1), Take(QUEUE_ORDER, worker, 2, lag), Reap(worker, 2 + PROCESSING_TIMEOUT)]
  }

  lemma LateRunStates(job: Job, worker: string, lag: int)
    ensures var run := LateRun(job, worker, lag);
            && After([run[0]]) == Next(Start, run[0])
            && After([run[0]] + [run[1]] + []) == Next(Next(Start, run[0]), run[1])
            && After(run) == Next(After([run[0]] + [run[1]] + []), run[2])
  {
    var run := LateRun(job, worker, lag);
    assert run[..2] == [run[0]] + [run[1]] + [];
    assert [run[0], run[1]][..1] == [run[0]] && [run[0]][..0] == [];
  }

  lemma LateRunLog(job: Job, worker: string, lag: int)
    requires New(job) && lag > 0
    ensures var log := After(LateRun(job, worker, lag)).log;
            Sum(log.reaped, IsJob(job.id)) == 1 && log.enqueued == [TagOf(job)] && log.deferred == []
  {
    var run := LateRun(job, worker, lag);
    LateRunStates(job, worker, lag);
    LoneTake(job, worker, lag);
    PutBackExactlyInWindow([run[0]], run[1], [], run[2].now);
  }

  /** Such a window is reached for every positive lag: the job is back in a ready list while it is still held. */
  lemma LateRecordIsReaped(job: Job, worker: string, lag: int)
    requires New(job) && lag > 0
    ensures var run := LateRun(job, worker, lag);
            Sum(After(run).log.reaped, IsJob(job.id)) == 1 && Copies(After(run), IsJob(job.id)) == 2
  {
    LateRunLog(job, worker, lag);
    CopiesAddUp(LateRun(job, worker, lag), IsJob(job.id));
    SumOne(TagOf(job), IsJob(job.id));
  }

  /** The reaper is without effect in all runs with a given bound on the lags if and only if the bound is 0. */
  lemma InertExactlyWithoutLag(lag: nat)
    ensures (forall steps: seq<Step> :: LagsWithin(steps, lag) ==> After(steps).log.reaped == []) <==> lag == 0
  {
    if lag == 0 {
      forall steps: seq<Step> | LagsWithin(steps, 0)
        ensures After(steps).log.reaped == []
      {
        ReaperNeverActs(steps);
      }
    } else {
      var job := Job("id", "url", Status.Ready, Unset, 0, 10, 0, None);
      LateRunLog(job, "worker", lag);
      assert LagsWithin(LateRun(job, "worker", lag), lag);
    }
  }
}
