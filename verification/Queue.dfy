/** The queue operations as methods that change the shared store in place. */
module Queues {
  import opened Options
  import opened Jobs
  import opened Lists
  import opened Store
  import opened Rules

  class Queue {
    var ready: map<Priority, seq<Job>>
    var retry: seq<Entry>
    var failed: seq<Job>
    var records: map<string, Record>
    var processing: map<string, Handles>

    function View(): Store
      reads this
    {
      Store(ready, retry, failed, records, processing)
    }

    /** The retry set is a sorted set: ordered by score, without equal members. */
    ghost predicate Valid()
      reads this
    {
      Sorted(retry) && Members(retry)
    }

    constructor ()
      ensures Valid() && View() == Empty
    {
      ready, retry, failed, records, processing := map[], [], [], map[], map[];
    }

    /** RPUSH to the list of the job's priority. */
    method RPush(job: Job)
      modifies this`ready
      ensures View() == PushReady(old(View()), job)
    {
      var list := if job.priority in ready then ready[job.priority] else [];
      ready := ready[job.priority := list + [job]];
    }

    /** Score the job, stamp it and append it to the ready list of its priority. */
    method Enqueue(job: Job, now: int) returns (queued: Job)
      requires Valid()
      modifies this`ready
      ensures Valid() && View() == EnqueueSpec(old(View()), job, now) && queued == Enqueued(job, now)
      ensures queued == job.(priority := queued.priority, lastEnqueuedAt := Some(now))
      ensures job.lastEnqueuedAt == None ==> AddedByScore(old(View()), View(), queued, job.baseScore)
      ensures job.lastEnqueuedAt != None && job.lastEnqueuedAt.value <= now ==>
                var score := AfterWaiting(job.baseScore, job.lastEnqueuedAt.value, now);
                AddedByScore(old(View()), View(), queued, score)
    {
      var effectiveScore;
      if job.lastEnqueuedAt == None {
        effectiveScore := job.baseScore;
      } else {
        var waited := Since(now, job.lastEnqueuedAt);
        effectiveScore := ApplyAging(job.baseScore, waited);
      }
      queued := job.(priority := ScoreToPriority(effectiveScore));
      queued := queued.(lastEnqueuedAt := Some(now));
      RPush(queued);
      EnqueueInPoints(old(View()), job, now);
    }

    /** Into the retry set; at is the place the set gives to the new member. */
    method ZAddRetry(due: int, job: Job) returns (ghost at: nat)
      requires Valid()
      modifies this`retry
      ensures Valid() && Slot(Without(old(retry), job), due, at)
      ensures View() == RequeueSpec(old(View()), job, due, at)
    {
      WithoutKeeps(retry, job);
      ghost var some := SlotExists(Without(retry, job), due);
      var rest := Without(retry, job);
      var place: nat :| Slot(rest, due, place);
      ZAddKeeps(retry, due, job, place);
      retry := rest[..place] + [Entry(due, job)] + rest[place..];
      at := place;
    }

    method RequeueWithDelay(job: Job, delay: int, now: int) returns (ghost at: nat)
      requires Valid()
      modifies this`retry
      ensures Valid() && Slot(Without(old(retry), job), Unix(now + delay), at)
      ensures View() == RequeueSpec(old(View()), job, Unix(now + delay), at)
      ensures exists second :: InSecond(second, now + delay) && FiledAt(old(retry), retry, job, second)
    {
      var retryTime := Unix(now + delay);
      UnixInSeconds(now + delay);
      at := ZAddRetry(retryTime, job);
      ZAddFiles(old(retry), retryTime, job, at);
    }

    /**
     * Pop the first job of the first non-empty list, stamp it, and note it under job:ID and
     * processing:worker; lag passes between stamp and note.
     */
    method Dequeue(queues: seq<Priority>, worker: string, now: int, lag: int) returns (job: Option<Job>)
      requires Valid()
      modifies this`ready, this`records, this`processing
      ensures Valid()
      ensures job == None <==> FirstNonEmpty(old(View()), queues) == None
      ensures job == None ==> View() == old(View())
      ensures job != None ==>
                var p := FirstNonEmpty(old(View()), queues).value;
                && ReadyList(old(View()), p) != []
                && job == Some(Taken(ReadyList(old(View()), p)[0], now))
                && View() == DequeueSpec(old(View()), p, worker, now, lag)
      ensures job == None <==> forall i :: 0 <= i < |queues| ==> ReadyList(old(View()), queues[i]) == []
      ensures job != None ==> exists i :: TakenFrom(old(View()), View(), queues, i, job.value, now, lag)
    {
      var i := 0;
      FirstNonEmptyFacts(View(), queues);
      while i < |queues| && ReadyList(View(), queues[i]) == []
        invariant 0 <= i <= |queues|
        invariant forall j :: 0 <= j < i ==> ReadyList(View(), queues[j]) == []
        invariant FirstNonEmpty(View(), queues) == FirstNonEmpty(View(), queues[i..])
      {
        i := i + 1;
      }
      if i == |queues| {
        return None;
      }
      var p := queues[i];
      var popped := ready[p][0];
      ready := ready[p := ready[p][1..]];

      var taken := popped.(status := InFlight);
      taken := taken.(visibilityStart := now);
      records := records[taken.id := Record(taken, now + lag + PROCESSING_TIMEOUT)];
      var handles := LiveHandles(View(), worker, now + lag);
      processing := processing[worker := Handles([taken.id] + handles, now + lag + PROCESSING_TIMEOUT)];
      assert TakenFrom(old(View()), View(), queues, i, taken, now, lag);
      return Some(taken);
    }

    /** Count the failure, then file the job under retry or failed. */
    method FileFailure(job: Job, now: int) returns (completed: Job, ghost at: nat)
      requires Valid() && job.retryCount >= 0
      modifies this`retry, this`failed
      ensures Valid() && completed == Failed(job)
      ensures Failed(job).retryCount < MAX_RETRIES ==>
                && Slot(Without(old(retry), Failed(job)), RetryDue(Failed(job), now), at)
                && retry == ZAdd(old(retry), RetryDue(Failed(job), now), Failed(job), at) && failed == old(failed)
      ensures Failed(job).retryCount >= MAX_RETRIES ==> retry == old(retry) && failed == [Failed(job)] + old(failed)
    {
      at := 0;
      completed := job.(retryCount := job.retryCount + 1);
      if completed.retryCount >= MAX_RETRIES {
        completed := completed.(status := Dead);
        failed := [completed] + failed;
      } else {
        completed := completed.(baseScore := completed.baseScore - Max(10, completed.retryCount * 10));
        if completed.baseScore < 0 {
          completed := completed.(baseScore := 10);
        }
        completed := completed.(priority := ScoreToPriority(completed.baseScore));
        var delay := Backoff(completed.retryCount);
        at := ZAddRetry(Unix(now + delay), completed);
      }
    }

    /** Forget the handle and the record, and file the job if it failed. */
    method CompleteJob(job: Job, success: bool, worker: string, now: int) returns (completed: Job, ghost at: nat)
      requires Valid() && job.retryCount >= 0
      modifies this`retry, this`failed, this`records, this`processing
      ensures Valid()
      ensures completed == if success then job.(status := Done) else Failed(job)
      ensures !success && Failed(job).retryCount < MAX_RETRIES ==>
                Slot(Without(old(retry), Failed(job)), RetryDue(Failed(job), now), at)
      ensures View() == CompleteSpec(old(View()), job, success, worker, now, at)
      ensures CompletedInPoints(old(View()), View(), job, success, completed, now)
    {
      at := 0;
      if worker in processing {
        var ids := RemoveFirst(LiveHandles(View(), worker, now), job.id);
        processing := processing[worker := processing[worker].(ids := ids)];
      }
      records := records - {job.id};
      if !success {
        completed, at := FileFailure(job, now);
      } else {
        completed := job.(status := Done);
      }
      assert View() == CompleteSpec(old(View()), job, success, worker, now, at);
      CompletionInPoints(old(View()), job, success, worker, now, at);
    }

    /** Move every due retry to the ready list of its aged score, earliest first. */
    method ProcessRetryJobs(now: int)
      requires Valid()
      modifies this`ready, this`retry
      ensures Valid() && View() == SweepSpec(old(View()), now)
      ensures SweptInPoints(old(View()), View(), now)
    {
      var results := DueEntries(retry, Unix(now));
      for i := 0 to |results|
        invariant View() == PromoteAll(old(View()), results[..i], now).(retry := AllWithout(old(retry), results[..i]))
      {
        assert results[..i + 1][..i] == results[..i];
        var job := Promoted(results[i].job, now);
        RPush(job);
        retry := Without(retry, results[i].job);
      }
      assert results[..|results|] == results;
      AllDueRemoved(old(retry), Unix(now));
      KeepSorted(old(retry), (e: Entry) => !Due(e, Unix(now)));
      KeepMembers(old(retry), (e: Entry) => !Due(e, Unix(now)));
      SweepInPoints(old(View()), now);
    }

    /** Put the jobs of a worker back whose records are old enough but still there. */
    method ReapStaleProcessingJobs(worker: string, now: int)
      requires Valid()
      modifies this`ready, this`records, this`processing
      ensures Valid() && View() == ReapSpec(old(View()), worker, LiveHandles(old(View()), worker, now), now)
    {
      var jobIDs := LiveHandles(View(), worker, now);
      for i := 0 to |jobIDs|
        invariant Valid() && View() == ReapSpec(old(View()), worker, jobIDs[..i], now)
      {
        assert jobIDs[..i + 1][..i] == jobIDs[..i];
        var id := jobIDs[i];
        if LiveRecord(View(), id, now) {
          var job := records[id].job;
          if now - job.visibilityStart >= PROCESSING_TIMEOUT {
            job := job.(status := Ready);
            job := job.(lastEnqueuedAt := Some(now));
            if worker in processing {
              var ids := RemoveFirst(LiveHandles(View(), worker, now), id);
              processing := processing[worker := processing[worker].(ids := ids)];
            }
            records := records - {id};
            RPush(job);
          }
        }
      }
      assert jobIDs[..|jobIDs|] == jobIDs;
    }
  }
}
