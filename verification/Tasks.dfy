/** One task of a crawl worker from end to end: the call, its error message, and what the queue keeps of the job. */
module Tasks {
  import opened Options
  import opened Jobs
  import opened Store
  import opened Rules
  import opened Queues
  import opened Worker
  import Crawl
  import Conservation
  import Frontier

  /** The text of the error a call ends with; failure is the text of any error but a refused slot. */
  function ErrorText(out: Crawl.Outcome, failure: string): Option<string> {
    match out
    case Success => None
    case RateLimited(ms) => Some(RateLimitMessage(if ms < 0 then 0 else ms))
    case Failure => Some(failure)
  }

  /** The domain's slot lies in the future. */
  predicate Refused(w: Crawl.World) {
    w.urlOk && w.metaOk && w.robotsOk && w.allowed && w.reserveOk && w.wait > 0
  }

  /**
   * processTask for a crawl job. A refused job waits for its slot, to the second, and is also counted as
   * failed; a failed one is filed once; a successful one not at all. Waits fit the 64 bits of a duration.
   */
  method ProcessTask(c: Crawl.Crawler, q: Queue, job: Job, w: Crawl.World, sum: string -> bv64, failure: string,
                     worker: string, requeueNow: int, now: int) returns (out: Crawl.Outcome)
    requires c.Valid() && q.Valid() && job.retryCount >= 0 && NotYetFiled(q.retry, job)
    requires !("rate limited" <= failure) && w.wait * 1_000_000 <= 9_223_372_036_854_775_807
    modifies c`parseQ, c.simIndex`Stored, c.simIndex.Buckets, q
    ensures q.Valid() && c.Valid()
    ensures Crawl.Answered(w, job.url, Crawl.PageFingerprint(w, sum), out,
                           old(c.simIndex.Stored), c.simIndex.Stored, old(c.parseQ), c.parseQ)
    ensures Refused(w) ==>
              exists second :: InSecond(second, requeueNow + w.wait * 1_000_000)
                               && FiledTwice(old(q.View()), q.View(), job, second)
    ensures out == Crawl.Success ==> q.retry == old(q.retry) && q.failed == old(q.failed)
    ensures out == Crawl.Failure ==> FiledOnce(old(q.View()), q.View(), job)
  {
    out := c.FetchAndStoreRaw(job.url, w, sum);
    var error := ErrorText(out, failure);
    assert Refused(w) ==> out == Crawl.RateLimited(w.wait);
    if Refused(w) { WaitSurvivesMessage(w.wait, job.retryCount); }
    var completed;
    ghost var requeueAt, at;
    completed, requeueAt, at := CompleteTask(q, job, error, worker, requeueNow, now);
  }

  /** In every run a copy that a worker holds, and has not requeued, is not in the retry set. */
  lemma HeldNotYetFiled(steps: seq<Frontier.Step>, i: nat)
    requires i < |Frontier.After(steps).held| && !Frontier.After(steps).held[i].requeued
    ensures NotYetFiled(Frontier.After(steps).store.retry, Frontier.After(steps).held[i].job)
  {
    var s := Frontier.After(steps);
    Conservation.RunsBalanced(steps, t => 0);
    forall e | e in s.store.retry
      ensures e.job.visibilityStart != s.held[i].job.visibilityStart
    {
      assert Conservation.SameStamp(e.job, s.held[i]);
    }
  }
}
