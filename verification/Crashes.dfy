/** Crashed workers: nobody puts back what they held. */
module Crashes {
  import opened Options
  import opened Jobs
  import opened Lists
  import opened Store
  import opened Frontier
  import opened Conservation
  import opened Reaper

  // ----- handles are of held copies -----

  function HandleIds(s: Store, worker: string): seq<string> {
    if worker in s.processing then s.processing[worker].ids else []
  }

  function HeldBy(worker: string, id: string): Held -> nat {
    (h: Held) => if h.worker == worker && h.job.id == id then 1 else 0
  }

  /** A worker that has not crashed has no more handles of a job than copies of it in hand. */
  ghost predicate Tracked(s: State, dead: set<string>) {
    forall w, id :: w !in dead ==> multiset(HandleIds(s.store, w))[id] <= Sum(s.held, HeldBy(w, id))
  }

  lemma {:induction false} RemoveFirstCount(ids: seq<string>, id: string)
    ensures multiset(RemoveFirst(ids, id)) == multiset(ids) - multiset{id}
  {
    if ids == [] {
    } else {
      assert ids == [ids[0]] + ids[1..];
      if ids[0] != id { RemoveFirstCount(ids[1..], id); }
    }
  }

  lemma DropHandleCount(s: Store, worker: string, one: string, now: int, w: string, id: string)
    ensures var n := multiset(HandleIds(s, w))[id];
            multiset(HandleIds(DropHandle(s, worker, one, now), w))[id]
            <= if w == worker && one == id && n > 0 then n - 1 else n
  {
    RemoveFirstCount(LiveHandles(s, worker, now), one);
  }

  lemma {:induction false} ReapHandleCount(s: Store, worker: string, ids: seq<string>, now: int, w: string, id: string)
    ensures multiset(HandleIds(ReapSpec(s, worker, ids, now), w))[id] <= multiset(HandleIds(s, w))[id]
  {
    if ids == [] {
    } else {
      var earlier, one := ids[..|ids| - 1], ids[|ids| - 1];
      ReapHandleCount(s, worker, earlier, now, w, id);
      DropHandleCount(ReapSpec(s, worker, earlier, now), worker, one, now, w, id);
    }
  }

  lemma TakeTracked(s: State, step: Step, w: string, id: string)
    requires step.Take? && Enabled(s, step)
    requires multiset(HandleIds(s.store, w))[id] <= Sum(s.held, HeldBy(w, id))
    ensures multiset(HandleIds(Next(s, step).store, w))[id] <= Sum(Next(s, step).held, HeldBy(w, id))
  {
    var h := Held(TakenJob(s, step), step.worker, false);
    SumAppend(s.held, h, HeldBy(w, id));
    assert Next(s, step).held == s.held + [h];
  }

  lemma FinishTracked(s: State, step: Step, w: string, id: string)
    requires step.Finish? && Enabled(s, step)
    requires multiset(HandleIds(s.store, w))[id] <= Sum(s.held, HeldBy(w, id))
    ensures multiset(HandleIds(Next(s, step).store, w))[id] <= Sum(Next(s, step).held, HeldBy(w, id))
  {
    var h, t := s.held[step.i], Next(s, step);
    SumRemoveAt(s.held, step.i, HeldBy(w, id));
    DropHandleCount(s.store, h.worker, h.job.id, step.now, w, id);
    assert t.store.processing == DropHandle(s.store, h.worker, h.job.id, step.now).processing;
  }

  function DeadAfter(s: State, step: Step, dead: set<string>): set<string> {
    if step.Crash? && Enabled(s, step) then dead + {s.held[step.i].worker} else dead
  }

  lemma StepKeepsTracked(s: State, step: Step, dead: set<string>)
    requires Tracked(s, dead)
    ensures Tracked(Next(s, step), DeadAfter(s, step, dead))
  {
    if !Enabled(s, step) { return; }
    var t := Next(s, step);
    forall w, id | w !in DeadAfter(s, step, dead)
      ensures multiset(HandleIds(t.store, w))[id] <= Sum(t.held, HeldBy(w, id))
    {
      match step
      case Take(_, _, _, _) => TakeTracked(s, step, w, id);
      case Defer(i, _, _, _) => SumUpdate(s.held, i, s.held[i].(requeued := true), HeldBy(w, id));
      case Finish(_, _, _, _) => FinishTracked(s, step, w, id);
      case Sweep(now) => PromoteFrame(s.store, DueEntries(s.store.retry, Unix(now)), now);
      case Reap(worker, now) => ReapHandleCount(s.store, worker, LiveHandles(s.store, worker, now), now, w, id);
      case Crash(i, _) => SumRemoveAt(s.held, i, HeldBy(w, id));
      case Submit(_, _) =>
    }
  }

  /** The workers that have crashed so far. */
  function Dead(steps: seq<Step>): set<string> {
    if steps == [] then {}
    else
      var before := steps[..|steps| - 1];
      DeadAfter(After(before), steps[|steps| - 1], Dead(before))
  }

  lemma {:induction false} RunsTracked(steps: seq<Step>)
    ensures Tracked(After(steps), Dead(steps))
  {
    if steps == [] {
    } else {
      var before := steps[..|steps| - 1];
      RunsTracked(before);
      StepKeepsTracked(After(before), steps[|steps| - 1], Dead(before));
    }
  }

  /** The reaper runs inside its worker, so it does not run for a worker that has crashed. */
  predicate DeadStayDead(steps: seq<Step>) {
    steps == [] ||
    (var before, step := steps[..|steps| - 1], steps[|steps| - 1];
     DeadStayDead(before) && (step.Reap? ==> step.worker !in Dead(before)))
  }

  /**
   * The reaper of a living worker puts back only what the worker still has in hand: it can double the
   * work on a job, whatever the lags, and never saves one.
   */
  lemma ReapOnlyDoubles(steps: seq<Step>, worker: string, id: string, now: int)
    requires worker !in Dead(steps) && PutBack(After(steps).store, worker, id, now) > 0
    ensures Sum(After(steps).held, HeldBy(worker, id)) > 0
  {
    RunsTracked(steps);
    RunsKeyed(steps);
    var s := After(steps);
    ReapOfId(s.store, worker, LiveHandles(s.store, worker, now), now, id);
    assert id in HandleIds(s.store, worker);
    assert multiset(HandleIds(s.store, worker))[id] > 0;
  }

  // ----- gone is gone -----

  /** No copy of the job is ready, waiting for a retry or held. */
  predicate Gone(s: State, id: string) {
    ReadyCount(s.store.ready, IsJob(id)) + RetryCount(s.store.retry, IsJob(id)) + HeldCount(s.held, IsJob(id)) == 0
  }

  lemma {:induction false} HeldByWithin(held: seq<Held>, worker: string, id: string)
    ensures Sum(held, HeldBy(worker, id)) <= HeldCount(held, IsJob(id))
  {
    if held == [] {
    } else {
      var n := |held| - 1;
      HeldByWithin(held[..n], worker, id);
      assert HeldJobs(held)[..n] == HeldJobs(held[..n]) && HeldJobs(held)[n] == held[n].job;
    }
  }

  lemma NoneHeld(held: seq<Held>, id: string, i: nat)
    requires HeldCount(held, IsJob(id)) == 0 && i < |held|
    ensures held[i].job.id != id
  {
    DropHeld(held, i, IsJob(id));
  }

  /** Nothing was filed between the two logs. */
  predicate SameFiled(log: Log, later: Log, f: Tag -> nat) {
    && Sum(later.enqueued, f) == Sum(log.enqueued, f) && Sum(later.deferred, f) == Sum(log.deferred, f)
    && Sum(later.reaped, f) == Sum(log.reaped, f) && Sum(later.refiled, f) == Sum(log.refiled, f)
  }

  predicate EndedGrows(log: Log, later: Log, f: Tag -> nat) {
    && Sum(later.succeeded, f) >= Sum(log.succeeded, f) && Sum(later.failures, f) >= Sum(log.failures, f)
    && Sum(later.lost, f) >= Sum(log.lost, f)
  }

  lemma FinishLogsNone(s: State, step: Step, id: string)
    requires step.Finish? && Enabled(s, step) && Gone(s, id)
    ensures SameFiled(s.log, Next(s, step).log, IsJob(id)) && EndedGrows(s.log, Next(s, step).log, IsJob(id))
  {
    var job, f := s.held[step.i].job, IsJob(id);
    NoneHeld(s.held, id, step.i);
    if step.success {
      SumAppend(s.log.succeeded, TagOf(job), f);
    } else {
      FailureLogged(s.log, job, step.now, f);
    }
  }

  lemma NothingFiled(s: State, step: Step, id: string)
    requires Gone(s, id) && (step.Submit? ==> step.job.id != id)
    requires step.Reap? ==> PutBack(s.store, step.worker, id, step.now) == 0
    ensures SameFiled(s.log, Next(s, step).log, IsJob(id)) && EndedGrows(s.log, Next(s, step).log, IsJob(id))
  {
    if !Enabled(s, step) { return; }
    var f := IsJob(id);
    match step
    case Submit(job, _) => SumAppend(s.log.enqueued, TagOf(job), f);
    case Defer(i, _, _, _) =>
      NoneHeld(s.held, id, i);
      SumAppend(s.log.deferred, TagOf(s.held[i].job), f);
    case Finish(_, _, _, _) => FinishLogsNone(s, step, id);
    case Reap(worker, now) =>
      SumConcat(s.log.reaped, ReapedTags(s.store, worker, LiveHandles(s.store, worker, now), now), f);
    case Crash(i, _) => SumAppend(s.log.lost, TagOf(s.held[i].job), f);
    case _ =>
  }

  lemma OneStepGone(steps: seq<Step>, step: Step, id: string)
    requires DeadStayDead(steps + [step]) && Gone(After(steps), id) && (step.Submit? ==> step.job.id != id)
    ensures Gone(After(steps + [step]), id)
    ensures SameFiled(After(steps).log, After(steps + [step]).log, IsJob(id))
    ensures EndedGrows(After(steps).log, After(steps + [step]).log, IsJob(id))
  {
    var s, f := After(steps), IsJob(id);
    assert (steps + [step])[..|steps|] == steps;
    if step.Reap? && PutBack(s.store, step.worker, id, step.now) > 0 {
      ReapOnlyDoubles(steps, step.worker, id, step.now);
      HeldByWithin(s.held, step.worker, id);
      assert false;
    }
    NothingFiled(s, step, id);
    RunsBalanced(steps, f);
    RunsBalanced(steps + [step], f);
  }

  /**
   * Once no copy of a job is ready, waiting or held, there is none for the rest of the run, unless it is
   * submitted again: whatever the lags, the reapers bring nothing back.
   */
  lemma {:induction false} GoneStaysGone(steps: seq<Step>, more: seq<Step>, id: string)
    requires DeadStayDead(steps + more) && Gone(After(steps), id)
    requires forall i :: 0 <= i < |more| && more[i].Submit? ==> more[i].job.id != id
    ensures Gone(After(steps + more), id)
    ensures SameFiled(After(steps).log, After(steps + more).log, IsJob(id))
    ensures EndedGrows(After(steps).log, After(steps + more).log, IsJob(id))
  {
    if more == [] {
      assert steps + more == steps;
    } else {
      var n := |more| - 1;
      LastOfMore(steps, more);
      assert steps + more == steps + more[..n] + [more[n]];
      GoneStaysGone(steps, more[..n], id);
      OneStepGone(steps + more[..n], more[n], id);
    }
  }

  /**
   * So a job enqueued once whose copy a worker took into a crash is gone: at no later time is a copy of
   * it ready, waiting, held, done or failed.
   */
  lemma CrashedJobIsGone(steps: seq<Step>, more: seq<Step>, id: string)
    requires DeadStayDead(steps + more)
    requires var log, f := After(steps).log, IsJob(id);
             Sum(log.enqueued, f) == 1 && Sum(log.deferred, f) == 0 && Sum(log.reaped, f) == 0 && Sum(log.lost, f) > 0
    requires forall i :: 0 <= i < |more| && more[i].Submit? ==> more[i].job.id != id
    ensures var s, f := After(steps + more), IsJob(id);
            && ReadyCount(s.store.ready, f) == 0 && RetryCount(s.store.retry, f) == 0 && HeldCount(s.held, f) == 0
            && Sum(s.log.succeeded, f) == 0 && CountJobs(s.store.failed, f) == 0
  {
    OneCopy(steps, id);
    GoneStaysGone(steps, more, id);
    OneCopy(steps + more, id);
  }
}
