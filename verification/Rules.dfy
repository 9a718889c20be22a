/** What the queue operations do, in points, seconds and single entries. */
module Rules {
  import opened Options
  import opened Jobs
  import opened Store

  // ----- points and seconds -----

  /** The class of a score. */
  predicate ClassOf(p: Priority, score: int) {
    && (p == Critical <==> score >= 90)
    && (p == High <==> 60 <= score < 90)
    && (p == Normal <==> 30 <= score < 60)
    && (p == Low <==> score < 30)
  }

  /** A score after waiting: one point for each full 30 seconds, and 30 points from 15 minutes on. */
  function AfterWaiting(score: int, since: int, now: int): int {
    if now - since >= 900_000_000_000 then score + 30 else score + (now - since) / 30_000_000_000
  }

  /** What is left of a score after the k-th failure. */
  function AfterFailure(score: int, k: int): int {
    if score - 10 * k >= 0 then score - 10 * k else 10
  }

  /** The whole second that a time falls into. */
  predicate InSecond(second: int, time: int) {
    second * 1_000_000_000 <= time < (second + 1) * 1_000_000_000
  }

  lemma PriorityInPoints(score: int)
    ensures ClassOf(ScoreToPriority(score), score)
  {
  }

  lemma AgingInPoints(score: int, since: int, now: int)
    requires since <= now
    ensures ApplyAging(score, Since(now, Some(since))) == AfterWaiting(score, since, now)
  {
  }

  lemma UnixInSeconds(time: int)
    ensures InSecond(Unix(time), time)
  {
  }

  // ----- enqueueing -----

  /** The job is at the end of the list of its class, and nowhere else anything has changed. */
  ghost predicate AddedByScore(s: Store, t: Store, job: Job, score: int) {
    && ClassOf(job.priority, score)
    && t == s.(ready := t.ready)
    && forall p: Priority :: ReadyList(t, p) == ReadyList(s, p) + if p == job.priority then [job] else []
  }

  lemma EnqueueInPoints(s: Store, job: Job, now: int)
    ensures var queued := Enqueued(job, now);
            && queued == job.(priority := queued.priority, lastEnqueuedAt := Some(now))
            && (job.lastEnqueuedAt == None ==> AddedByScore(s, EnqueueSpec(s, job, now), queued, job.baseScore))
            && (job.lastEnqueuedAt != None && job.lastEnqueuedAt.value <= now ==>
                  var score := AfterWaiting(job.baseScore, job.lastEnqueuedAt.value, now);
                  AddedByScore(s, EnqueueSpec(s, job, now), queued, score))
  {
    var queued := Enqueued(job, now);
    forall p: Priority
      ensures ReadyList(EnqueueSpec(s, job, now), p) == ReadyList(s, p) + if p == queued.priority then [queued] else []
    {
      PushReadyList(s, queued, p);
    }
    if job.lastEnqueuedAt != None && job.lastEnqueuedAt.value <= now {
      AgingInPoints(job.baseScore, job.lastEnqueuedAt.value, now);
    }
  }

  // ----- dequeuing -----

  /** The oldest job of the first list that is not empty, stamped, and with a record for five minutes. */
  ghost predicate TakenFrom(s: Store, t: Store, queues: seq<Priority>, i: int, job: Job, now: int, lag: int) {
    && 0 <= i < |queues| && ReadyList(s, queues[i]) != []
    && (forall j :: 0 <= j < i ==> ReadyList(s, queues[j]) == [])
    && job == ReadyList(s, queues[i])[0].(status := InFlight, visibilityStart := now)
    && (forall p: Priority :: ReadyList(t, p) == if p == queues[i] then ReadyList(s, p)[1..] else ReadyList(s, p))
    && t.retry == s.retry && t.failed == s.failed
    && t.records == s.records[job.id := Record(job, now + lag + 300_000_000_000)]
  }

  // ----- completing -----

  /** A failed job before its fifth failure: one failure more, a lower score, the class of that score. */
  predicate FailedInPoints(job: Job, after: Job) {
    var k := job.retryCount + 1;
    && after == job.(retryCount := k, baseScore := AfterFailure(job.baseScore, k), priority := after.priority)
    && ClassOf(after.priority, after.baseScore)
  }

  lemma FailureInPoints(job: Job)
    requires job.retryCount >= 0
    ensures job.retryCount < 4 ==> FailedInPoints(job, Failed(job)) && Failed(job).retryCount < MAX_RETRIES
    ensures job.retryCount >= 4 ==>
              && Failed(job) == job.(retryCount := job.retryCount + 1, status := Dead)
              && Failed(job).retryCount >= MAX_RETRIES
  {
  }

  /**
   * The job is a member of the retry set with the given second, one member more unless it was one before,
   * and the other members are what they were.
   */
  ghost predicate FiledAt(was: seq<Entry>, retry: seq<Entry>, job: Job, second: int) {
    && Entry(second, job) in retry
    && (forall e: Entry :: e in retry && e.job == job ==> e.due == second)
    && (forall e: Entry :: e.job != job ==> (e in retry <==> e in was))
    && ((forall e :: e in was ==> e.job != job) ==> |retry| == |was| + 1)
  }

  lemma ZAddFiles(retry: seq<Entry>, due: int, job: Job, at: nat)
    requires at <= |Without(retry, job)|
    ensures FiledAt(retry, ZAdd(retry, due, job, at), job, due)
  {
    var rest := Without(retry, job);
    assert forall e: Entry :: e in rest <==> e in retry && e.job != job;
    assert forall e: Entry :: e in ZAdd(retry, due, job, at) <==> e == Entry(due, job) || e in rest by {
      assert ZAdd(retry, due, job, at)[at] == Entry(due, job);
      assert rest == rest[..at] + rest[at..];
    }
    if forall e :: e in retry ==> e.job != job {
      KeepAll(retry, (e: Entry) => e.job != job);
    }
  }

  /** Two, four, eight and sixteen seconds after the first four failures. */
  function RetryAfter(k: int): int {
    if k == 1 then 2_000_000_000 else if k == 2 then 4_000_000_000 else if k == 3 then 8_000_000_000 else 16_000_000_000
  }

  lemma BackoffInSeconds(k: nat)
    requires 1 <= k <= 4
    ensures Backoff(k) == RetryAfter(k)
  {
    assert Backoff(1) == 2 * SECOND && Backoff(2) == 4 * SECOND;
    assert Backoff(3) == 8 * SECOND && Backoff(4) == 16 * SECOND;
  }

  /** What a completion files: nothing, a retry at its second, or a dead job in front of the failed ones. */
  ghost predicate CompletedInPoints(s: Store, t: Store, job: Job, success: bool, after: Job, now: int) {
    && t.ready == s.ready && job.id !in t.records
    && (success ==> after == job.(status := Done) && t.retry == s.retry && t.failed == s.failed)
    && (!success && job.retryCount < 4 ==>
          && FailedInPoints(job, after) && t.failed == s.failed
          && exists second :: InSecond(second, now + RetryAfter(after.retryCount))
                              && FiledAt(s.retry, t.retry, after, second))
    && (!success && job.retryCount >= 4 ==>
          && after == job.(retryCount := job.retryCount + 1, status := Dead)
          && t.retry == s.retry && t.failed == [after] + s.failed)
  }

  lemma CompletionInPoints(s: Store, job: Job, success: bool, worker: string, now: int, at: nat)
    requires job.retryCount >= 0
    requires !success && Failed(job).retryCount < MAX_RETRIES ==> at <= |Without(s.retry, Failed(job))|
    ensures CompletedInPoints(s, CompleteSpec(s, job, success, worker, now, at), job, success,
                              if success then job.(status := Done) else Failed(job), now)
  {
    FailureInPoints(job);
    if !success && job.retryCount < 4 {
      var due := RetryDue(Failed(job), now);
      BackoffInSeconds(job.retryCount + 1);
      UnixInSeconds(now + Backoff(job.retryCount + 1));
      ZAddFiles(s.retry, due, Failed(job), at);
    }
  }

  // ----- the retry sweep -----

  /** Entries whose second has come, unless their score is negative. */
  predicate HasCome(e: Entry, now: int) {
    0 <= e.due && e.due * 1_000_000_000 <= now
  }

  lemma DueInSeconds(e: Entry, now: int)
    ensures Due(e, Unix(now)) <==> HasCome(e, now)
  {
  }

  /** The due jobs that go to list p, in the order in which they became due. */
  function Chosen(due: seq<Entry>, now: int, p: Priority): seq<Job> {
    if due == [] then []
    else
      var job := Promoted(due[|due| - 1].job, now);
      Chosen(due[..|due| - 1], now, p) + if job.priority == p then [job] else []
  }

  lemma {:induction false} PromotedLists(s: Store, due: seq<Entry>, now: int, p: Priority)
    ensures ReadyList(PromoteAll(s, due, now), p) == ReadyList(s, p) + Chosen(due, now, p)
  {
    if due == [] {
    } else {
      PromotedLists(s, due[..|due| - 1], now, p);
      PushReadyList(PromoteAll(s, due[..|due| - 1], now), Promoted(due[|due| - 1].job, now), p);
    }
  }

  lemma {:induction false} DueIsChosen(due: seq<Entry>, now: int, e: Entry)
    requires e in due
    ensures Promoted(e.job, now) in Chosen(due, now, Promoted(e.job, now).priority)
  {
    var n := |due| - 1;
    if due[n] != e {
      assert e in due[..n];
      DueIsChosen(due[..n], now, e);
    }
  }

  /** The job of a retry as it becomes ready: its score aged, the class of that score, a new stamp. */
  predicate AgedInto(job: Job, after: Job, now: int)
    requires job.lastEnqueuedAt != None
  {
    && after == job.(baseScore := AfterWaiting(job.baseScore, job.lastEnqueuedAt.value, now), status := Ready,
                     priority := after.priority, lastEnqueuedAt := Some(now))
    && ClassOf(after.priority, after.baseScore)
  }

  /** What a sweep does to every entry. */
  ghost predicate SweptInPoints(s: Store, t: Store, now: int) {
    && (forall e :: e in t.retry <==> e in s.retry && !HasCome(e, now))
    && (forall e :: e in s.retry && HasCome(e, now)
                    && e.job.lastEnqueuedAt != None && e.job.lastEnqueuedAt.value <= now ==>
          exists after :: AgedInto(e.job, after, now) && after in ReadyList(t, after.priority))
    && (forall p: Priority :: ReadyList(s, p) <= ReadyList(t, p))
  }

  lemma PromotedInPoints(job: Job, now: int)
    requires job.lastEnqueuedAt != None && job.lastEnqueuedAt.value <= now
    ensures AgedInto(job, Promoted(job, now), now)
  {
    AgingInPoints(job.baseScore, job.lastEnqueuedAt.value, now);
  }

  lemma SweepInPoints(s: Store, now: int)
    ensures SweptInPoints(s, SweepSpec(s, now), now)
  {
    var t, due := SweepSpec(s, now), DueEntries(s.retry, Unix(now));
    forall p: Priority
      ensures ReadyList(t, p) == ReadyList(s, p) + Chosen(due, now, p)
    {
      PromotedLists(s, due, now, p);
    }
    forall e: Entry
      ensures Due(e, Unix(now)) <==> HasCome(e, now)
    {
      DueInSeconds(e, now);
    }
    forall e | e in s.retry && HasCome(e, now) && e.job.lastEnqueuedAt != None && e.job.lastEnqueuedAt.value <= now
      ensures exists after :: AgedInto(e.job, after, now) && after in ReadyList(t, after.priority)
    {
      PromotedInPoints(e.job, now);
      DueIsChosen(due, now, e);
    }
  }
}
