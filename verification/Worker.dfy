/** How a worker hands a finished job back, and the message that carries a rate-limit wait. */
module Worker {
  import opened Options
  import opened Jobs
  import opened Store
  import opened Rules
  import opened Queues
  import opened Text

  const RATE_LIMITED := "rate limited"
  const MILLISECOND: int := 1_000_000
  const MAX_INT64: int := 9_223_372_036_854_775_807

  // ----- numbers as text -----

  function Digit(d: nat): char
    requires d < 10
  {
    "0123456789"[d]
  }

  /** %d of a number that is not negative. */
  function Decimal(n: nat): string {
    if n < 10 then [Digit(n)] else Decimal(n / 10) + [Digit(n % 10)]
  }

  predicate IsDigit(c: char) {
    '0' <= c <= '9'
  }

  function DigitValue(c: char): nat
    requires IsDigit(c)
  {
    c as int - '0' as int
  }

  /** The value of a non-empty string of digits. */
  function Unsigned(s: string): Option<nat> {
    if s == "" || !IsDigit(s[|s| - 1]) then None
    else if |s| == 1 then Some(DigitValue(s[0]))
    else
      match Unsigned(s[..|s| - 1])
      case None => None
      case Some(n) => Some(10 * n + DigitValue(s[|s| - 1]))
  }

  /** strconv.Atoi: an optional sign and digits, within 64 bits. */
  function Atoi(s: string): Option<int> {
    var negative := s != "" && s[0] == '-';
    var digits := if s != "" && (s[0] == '-' || s[0] == '+') then s[1..] else s;
    match Unsigned(digits)
    case None => None
    case Some(n) =>
      var value: int := if negative then 0 - n else n;
      if -MAX_INT64 - 1 <= value <= MAX_INT64 then Some(value) else None
  }

  lemma UnsignedAppend(s: string, n: nat, d: nat)
    requires s != "" && Unsigned(s) == Some(n) && d < 10
    ensures IsDigit(Digit(d)) && Unsigned(s + [Digit(d)]) == Some(10 * n + d)
  {
    var t := s + [Digit(d)];
    assert t[..|t| - 1] == s && t[|t| - 1] == Digit(d);
    assert Digit(d) as int == '0' as int + d;
  }

  lemma {:induction false} DecimalDigits(n: nat)
    ensures Unsigned(Decimal(n)) == Some(n) && Decimal(n) != ""
    ensures forall i :: 0 <= i < |Decimal(n)| ==> IsDigit(Decimal(n)[i])
  {
    if n >= 10 {
      DecimalDigits(n / 10);
      UnsignedAppend(Decimal(n / 10), n / 10, n % 10);
      assert n == 10 * (n / 10) + n % 10;
    }
  }

  lemma DecimalThenAtoi(n: nat)
    requires n <= MAX_INT64
    ensures Atoi(Decimal(n)) == Some(n)
  {
    DecimalDigits(n);
    assert IsDigit(Decimal(n)[0]);
  }

  // ----- the wait that travels in an error message -----

  /** The error of a refused fetch: the sentinel's text, a colon and the wait in milliseconds. */
  function RateLimitMessage(ms: nat): string {
    RATE_LIMITED + ":" + Decimal(ms)
  }

  /** The worker recognises the error by its prefix. */
  predicate RetryLater(message: string) {
    RATE_LIMITED <= message
  }

  /** Products of durations wrap around at 64 bits. */
  function Wrap64(x: int): int {
    (x + MAX_INT64 + 1) % (2 * (MAX_INT64 + 1)) - MAX_INT64 - 1
  }

  /** The delay of a requeue: what the message says, or the backoff of the retry count. */
  function DelayOf(message: string, retryCount: nat): int {
    var parts := Split(message, ':');
    if ':' in message && |parts| == 2 && Atoi(parts[1]) != None then Wrap64(Atoi(parts[1]).value * MILLISECOND)
    else Backoff(retryCount)
  }

  /** The wait arrives unchanged, as long as it fits a 64-bit count of nanoseconds. */
  lemma WaitSurvivesMessage(ms: nat, retryCount: nat)
    requires ms * 1_000_000 <= MAX_INT64
    ensures "rate limited" <= RateLimitMessage(ms)
    ensures DelayOf(RateLimitMessage(ms), retryCount) == ms * 1_000_000
  {
    var message := RateLimitMessage(ms);
    DecimalDigits(ms);
    forall i | 0 <= i < |Decimal(ms)|
      ensures Decimal(ms)[i] != ':'
    {
      assert IsDigit(Decimal(ms)[i]);
    }
    assert message == RATE_LIMITED + [':'] + Decimal(ms);
    SplitOnce(RATE_LIMITED, Decimal(ms), ':');
    assert message[|RATE_LIMITED|] == ':';
    DecimalThenAtoi(ms);
    SmallProduct(ms * MILLISECOND);
  }

  lemma SmallProduct(x: int)
    requires 0 <= x <= MAX_INT64
    ensures Wrap64(x) == x
  {
  }

  /** A message with no colon, or more than one, carries no wait: 1, 2, 4, 8 and 16 seconds are taken instead. */
  lemma DelayWithoutWait(message: string, retryCount: nat)
    requires retryCount <= 4 && multiset(message)[':'] != 1
    ensures DelayOf(message, retryCount) == [1, 2, 4, 8, 16][retryCount] * 1_000_000_000
  {
    SplitCount(message, ':');
    assert Backoff(0) == SECOND && Backoff(1) == 2 * SECOND && Backoff(2) == 4 * SECOND;
    assert Backoff(3) == 8 * SECOND && Backoff(4) == 16 * SECOND;
  }

  // ----- completing a task -----

  /** No member of the retry set was taken when this copy was, as it is with every copy before it is filed. */
  predicate NotYetFiled(retry: seq<Entry>, job: Job) {
    forall e :: e in retry ==> e.job.visibilityStart != job.visibilityStart
  }

  /** The copy with one failure more: a retry or a failed job. */
  predicate CountedCopy(t: Store, job: Job, after: Job) {
    after.id == job.id && after.retryCount == job.retryCount + 1
    && (after in t.failed || exists e :: e in t.retry && e.job == after)
  }

  /** Exactly one copy of the job was filed, and not as it was. */
  ghost predicate FiledOnce(s: Store, t: Store, job: Job) {
    && |t.retry| + |t.failed| == |s.retry| + |s.failed| + 1
    && (exists after :: CountedCopy(t, job, after))
    && (forall e :: e in s.retry ==> e in t.retry) && (forall e :: e in t.retry ==> e.job != job)
  }

  /** Exactly two copies were filed, one of them unchanged. */
  ghost predicate FiledTwice(s: Store, t: Store, job: Job, second: int) {
    && |t.retry| + |t.failed| == |s.retry| + |s.failed| + 2
    && (exists after :: CountedCopy(t, job, after))
    && Entry(second, job) in t.retry
    && (forall e :: e in s.retry ==> e in t.retry)
  }

  lemma FailureFiledOnce(s: Store, t: Store, job: Job, after: Job, now: int)
    requires CompletedInPoints(s, t, job, false, after, now) && NotYetFiled(s.retry, job) && job.retryCount >= 0
    ensures FiledOnce(s, t, job)
  {
    if job.retryCount < 4 {
      var second :| InSecond(second, now + RetryAfter(after.retryCount)) && FiledAt(s.retry, t.retry, after, second);
      assert Entry(second, after) in t.retry;
    } else {
      assert t.failed[0] == after;
    }
    assert CountedCopy(t, job, after);
  }

  lemma RefusalFiledTwice(s: Store, u: Store, t: Store, job: Job, after: Job, second: int, now: int)
    requires NotYetFiled(s.retry, job) && job.retryCount >= 0
    requires FiledAt(s.retry, u.retry, job, second) && u.failed == s.failed
    requires CompletedInPoints(u, t, job, false, after, now)
    ensures FiledTwice(s, t, job, second)
  {
    if job.retryCount < 4 {
      var due :| InSecond(due, now + RetryAfter(after.retryCount)) && FiledAt(u.retry, t.retry, after, due);
      assert Entry(due, after) in t.retry;
      assert forall e :: e in u.retry ==> e.job == job || e in s.retry;
    } else {
      assert t.failed[0] == after;
    }
    assert CountedCopy(t, job, after);
  }

  lemma RefusalInCopies(s: Store, job: Job, time: int, requeueAt: nat, worker: string, now: int, at: nat)
    requires job.retryCount >= 0 && Slot(Without(s.retry, job), Unix(time), requeueAt)
    requires var u := RequeueSpec(s, job, Unix(time), requeueAt);
             Failed(job).retryCount < MAX_RETRIES ==>
               Slot(Without(u.retry, Failed(job)), RetryDue(Failed(job), now), at)
    ensures var t := CompleteSpec(RequeueSpec(s, job, Unix(time), requeueAt), job, false, worker, now, at);
            NotYetFiled(s.retry, job) ==> exists second :: InSecond(second, time) && FiledTwice(s, t, job, second)
  {
    if NotYetFiled(s.retry, job) {
      var u := RequeueSpec(s, job, Unix(time), requeueAt);
      ZAddFiles(s.retry, Unix(time), job, requeueAt);
      CompletionInPoints(u, job, false, worker, now, at);
      RefusalFiledTwice(s, u, CompleteSpec(u, job, false, worker, now, at), job, Failed(job), Unix(time), now);
      UnixInSeconds(time);
    }
  }

  /** The delay is the wait in the message, if there is one. */
  method ParseDelay(errorMsg: string, retryCount: nat) returns (delay: int)
    ensures delay == DelayOf(errorMsg, retryCount)
  {
    delay := Backoff(retryCount);
    if ':' in errorMsg {
      var parts := Split(errorMsg, ':');
      if |parts| == 2 {
        var ms := Atoi(parts[1]);
        if ms != None {
          delay := Wrap64(ms.value * MILLISECOND);
        }
      }
    }
  }

  /** A rate-limited task: requeue the job unchanged, then complete it as failed. */
  method CompleteRefused(q: Queue, job: Job, delay: int, worker: string, requeueNow: int, now: int)
    returns (completed: Job, ghost requeueAt: nat, ghost at: nat)
    requires q.Valid() && 0 <= job.retryCount
    modifies q
    ensures q.Valid() && completed == Failed(job)
    ensures Slot(Without(old(q.retry), job), Unix(requeueNow + delay), requeueAt)
    ensures var s := RequeueSpec(old(q.View()), job, Unix(requeueNow + delay), requeueAt);
            && (Failed(job).retryCount < MAX_RETRIES ==>
                  Slot(Without(s.retry, Failed(job)), RetryDue(Failed(job), now), at))
            && q.View() == CompleteSpec(s, job, false, worker, now, at)
  {
    requeueAt := q.RequeueWithDelay(job, delay, requeueNow);
    completed, at := q.CompleteJob(job, false, worker, now);
  }

  /**
   * processTask's verdict and completeTask: a rate-limited job is first filed unchanged, and then
   * completed like any other failure.
   */
  method CompleteTask(q: Queue, job: Job, error: Option<string>, worker: string, requeueNow: int, now: int)
    returns (completed: Job, ghost requeueAt: nat, ghost at: nat)
    requires q.Valid() && 0 <= job.retryCount
    modifies q
    ensures q.Valid()
    ensures error == None ==> q.View() == CompleteSpec(old(q.View()), job, true, worker, now, 0)
    ensures error != None && RetryLater(error.value) ==>
              Slot(Without(old(q.retry), job), Unix(requeueNow + DelayOf(error.value, job.retryCount)), requeueAt)
    ensures error != None ==>
              var due := Unix(requeueNow + DelayOf(error.value, job.retryCount));
              var s := if RetryLater(error.value) then RequeueSpec(old(q.View()), job, due, requeueAt)
                       else old(q.View());
              && (Failed(job).retryCount < MAX_RETRIES ==>
                    Slot(Without(s.retry, Failed(job)), RetryDue(Failed(job), now), at))
              && q.View() == CompleteSpec(s, job, false, worker, now, at)
    ensures completed == if error == None then job.(status := Done) else Failed(job)
    ensures error == None ==> q.retry == old(q.retry) && q.failed == old(q.failed)
    ensures error != None && NotYetFiled(old(q.retry), job) && !("rate limited" <= error.value) ==>
              FiledOnce(old(q.View()), q.View(), job)
    ensures error != None && NotYetFiled(old(q.retry), job) && "rate limited" <= error.value ==>
              exists second :: InSecond(second, requeueNow + DelayOf(error.value, job.retryCount))
                               && FiledTwice(old(q.View()), q.View(), job, second)
  {
    var success := error == None;
    var retryLater := false;
    requeueAt := 0;
    if !success && RATE_LIMITED <= error.value {
      retryLater := true;
    }
    if success {
      completed, at := q.CompleteJob(job, success, worker, now);
    } else if retryLater {
      var delay := ParseDelay(error.value, job.retryCount);
      completed, requeueAt, at := CompleteRefused(q, job, delay, worker, requeueNow, now);
      RefusalInCopies(old(q.View()), job, requeueNow + delay, requeueAt, worker, now, at);
    } else {
      completed, at := q.CompleteJob(job, success, worker, now);
      if NotYetFiled(old(q.retry), job) { FailureFiledOnce(old(q.View()), q.View(), job, completed, now); }
    }
  }
}
