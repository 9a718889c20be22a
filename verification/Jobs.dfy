/** Jobs, scores and priorities. Times and durations are in nanoseconds. */
module Jobs {
  import opened Numbers
  import opened Options

  const SECOND: int := 1_000_000_000
  const MAX_RETRIES := 5
  const MAX_DURATION: int := 9_223_372_036_854_775_807

  /** Unset is the empty string a new job starts with. */
  datatype Priority = Critical | High | Normal | Low | Unset

  datatype Status = Ready | InFlight | Done | Dead

  /** lastEnqueuedAt is None for the zero time of a job that was never enqueued. */
  datatype Job = Job(
    id: string, url: string, status: Status, priority: Priority, retryCount: int, baseScore: int,
    visibilityStart: int, lastEnqueuedAt: Option<int>)

  function ScoreToPriority(score: int): Priority {
    if score >= 90 then Critical
    else if score >= 60 then High
    else if score >= 30 then Normal
    else Low
  }

  function Min(a: int, b: int): int { if a <= b then a else b }

  function Max(a: int, b: int): int { if a >= b then a else b }

  /** Conversion to an integer type truncates toward zero. */
  function Truncate(a: int, d: int): int
    requires d > 0
  {
    if a >= 0 then a / d else -((-a) / d)
  }

  /** One point for every 30 seconds of waiting, 30 at most. */
  function ApplyAging(baseScore: int, waited: int): int {
    baseScore + Min(Truncate(waited, 30 * SECOND), 30)
  }

  /** time.Since; the difference to the zero time saturates. */
  function Since(now: int, last: Option<int>): int {
    match last
    case None => MAX_DURATION
    case Some(t) => Max(-MAX_DURATION - 1, Min(MAX_DURATION, now - t))
  }

  /** time.Time.Unix: whole seconds, rounded down. */
  function Unix(t: int): int {
    t / SECOND
  }

  /** 1 << retryCount seconds. */
  function Backoff(retryCount: nat): int {
    SECOND * Pow2(retryCount)
  }

  // ----- what the operations do to a job -----

  function Enqueued(job: Job, now: int): Job {
    var effective := if job.lastEnqueuedAt == None then job.baseScore
                     else ApplyAging(job.baseScore, Since(now, job.lastEnqueuedAt));
    job.(priority := ScoreToPriority(effective), lastEnqueuedAt := Some(now))
  }

  function Taken(job: Job, now: int): Job {
    job.(status := InFlight, visibilityStart := now)
  }

  /** One more failed attempt; the job is dead after the fifth. */
  function Failed(job: Job): Job {
    var count := job.retryCount + 1;
    if count >= MAX_RETRIES then job.(retryCount := count, status := Dead)
    else
      var lowered := job.baseScore - Max(10, count * 10);
      var score := if lowered < 0 then 10 else lowered;
      job.(retryCount := count, baseScore := score, priority := ScoreToPriority(score))
  }

  /** A retry that has become due goes back to a ready list with an aged score. */
  function Promoted(job: Job, now: int): Job {
    var score := ApplyAging(job.baseScore, Since(now, job.lastEnqueuedAt));
    job.(baseScore := score, priority := ScoreToPriority(score), lastEnqueuedAt := Some(now), status := Ready)
  }

  function Reaped(job: Job, now: int): Job {
    job.(status := Ready, lastEnqueuedAt := Some(now))
  }
}
