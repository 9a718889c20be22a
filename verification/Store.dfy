/** The Redis side of one queue as a value, and what each queue operation does to it. */
module Store {
  import opened Options
  import opened Jobs
  import opened Lists

  const PROCESSING_TIMEOUT: int := 300 * SECOND

  /** The order in which workers ask for ready lists. */
  const QUEUE_ORDER: seq<Priority> := [Critical, High, Normal, Low]

  /** A member of the retry set: due, in whole seconds, is its score. */
  datatype Entry = Entry(due: int, job: Job)

  /** The key job:ID and the second at which it expires. */
  datatype Record = Record(job: Job, expires: int)

  /** The list processing:worker and when it expires. */
  datatype Handles = Handles(ids: seq<string>, expires: int)

  datatype Store = Store(
    ready: map<Priority, seq<Job>>, retry: seq<Entry>, failed: seq<Job>, records: map<string, Record>,
    processing: map<string, Handles>)

  const Empty := Store(map[], [], [], map[], map[])

  // ----- lists and keys -----

  function ListAt(ready: map<Priority, seq<Job>>, p: Priority): seq<Job> {
    if p in ready then ready[p] else []
  }

  function ReadyList(s: Store, p: Priority): seq<Job> {
    ListAt(s.ready, p)
  }

  function PushReady(s: Store, job: Job): Store {
    s.(ready := s.ready[job.priority := ReadyList(s, job.priority) + [job]])
  }

  lemma PushReadyList(s: Store, job: Job, p: Priority)
    ensures ReadyList(PushReady(s, job), p) == ReadyList(s, p) + if p == job.priority then [job] else []
  {
  }

  /** The handles of a worker that have not expired. */
  function LiveHandles(s: Store, worker: string, now: int): seq<string> {
    if worker in s.processing && now < s.processing[worker].expires then s.processing[worker].ids else []
  }

  predicate LiveRecord(s: Store, id: string, now: int) {
    id in s.records && now < s.records[id].expires
  }

  /** LREM key 1 id: drop the first occurrence. */
  function RemoveFirst(ids: seq<string>, id: string): seq<string> {
    if ids == [] then [] else if ids[0] == id then ids[1..] else [ids[0]] + RemoveFirst(ids[1..], id)
  }

  function DropHandle(s: Store, worker: string, id: string, now: int): Store {
    if worker in s.processing then
      var ids := RemoveFirst(LiveHandles(s, worker, now), id);
      s.(processing := s.processing[worker := s.processing[worker].(ids := ids)])
    else s
  }

  function DropRecord(s: Store, id: string): Store {
    s.(records := s.records - {id})
  }

  // ----- the retry set -----

  predicate Sorted(retry: seq<Entry>) {
    forall i, j :: 0 <= i < j < |retry| ==> retry[i].due <= retry[j].due
  }

  /** No two members are the same job value. */
  predicate Members(retry: seq<Entry>) {
    forall i, j :: 0 <= i < j < |retry| ==> retry[i].job != retry[j].job
  }

  /** The entries that satisfy p, in order. */
  function Keep(retry: seq<Entry>, p: Entry -> bool): (r: seq<Entry>)
    ensures forall e :: e in r <==> e in retry && p(e)
  {
    if retry == [] then []
    else (if p(retry[0]) then [retry[0]] else []) + Keep(retry[1..], p)
  }

  lemma {:induction false} KeepSorted(retry: seq<Entry>, p: Entry -> bool)
    requires Sorted(retry)
    ensures Sorted(Keep(retry, p))
  {
    if retry == [] {
    } else {
      KeepSorted(retry[1..], p);
      var rest := Keep(retry[1..], p);
      forall i | 0 <= i < |rest|
        ensures retry[0].due <= rest[i].due
      {
        assert rest[i] in retry[1..];
      }
    }
  }

  lemma {:induction false} KeepMembers(retry: seq<Entry>, p: Entry -> bool)
    requires Members(retry)
    ensures Members(Keep(retry, p))
  {
    if retry == [] {
    } else {
      KeepMembers(retry[1..], p);
      var rest := Keep(retry[1..], p);
      forall i | 0 <= i < |rest|
        ensures retry[0].job != rest[i].job
      {
        assert rest[i] in retry[1..];
      }
    }
  }

  lemma {:induction false} KeepSame(retry: seq<Entry>, p: Entry -> bool, q: Entry -> bool)
    requires forall e :: e in retry ==> p(e) == q(e)
    ensures Keep(retry, p) == Keep(retry, q)
  {
    if retry == [] {
    } else {
      assert retry[0] in retry;
      KeepSame(retry[1..], p, q);
    }
  }

  lemma {:induction false} KeepTwice(retry: seq<Entry>, p: Entry -> bool, q: Entry -> bool, both: Entry -> bool)
    requires forall e :: e in retry ==> both(e) == (p(e) && q(e))
    ensures Keep(Keep(retry, p), q) == Keep(retry, both)
  {
    if retry == [] {
    } else {
      var e, rest := retry[0], retry[1..];
      assert e in retry;
      KeepTwice(rest, p, q, both);
      if p(e) {
        assert Keep(retry, p) == [e] + Keep(rest, p);
        assert ([e] + Keep(rest, p))[1..] == Keep(rest, p);
      } else {
        assert Keep(retry, p) == Keep(rest, p);
      }
    }
  }

  lemma {:induction false} KeepAll(retry: seq<Entry>, p: Entry -> bool)
    requires forall e :: e in retry ==> p(e)
    ensures Keep(retry, p) == retry
  {
    if retry == [] {
    } else {
      assert retry[0] in retry;
      KeepAll(retry[1..], p);
    }
  }

  function Without(retry: seq<Entry>, job: Job): seq<Entry> {
    Keep(retry, (e: Entry) => e.job != job)
  }

  /** A place for a score: members with equal scores are ordered by their bytes, which are not modelled. */
  predicate Slot(retry: seq<Entry>, due: int, at: nat) {
    && at <= |retry|
    && (forall i :: 0 <= i < at ==> retry[i].due <= due)
    && (forall i :: at <= i < |retry| ==> due <= retry[i].due)
  }

  /** ZADD: a member that is already there only gets the new score. */
  function ZAdd(retry: seq<Entry>, due: int, job: Job, at: nat): seq<Entry>
    requires at <= |Without(retry, job)|
  {
    Without(retry, job)[..at] + [Entry(due, job)] + Without(retry, job)[at..]
  }

  lemma SlotExists(retry: seq<Entry>, due: int) returns (at: nat)
    requires Sorted(retry)
    ensures Slot(retry, due, at)
  {
    at := 0;
    while at < |retry| && retry[at].due < due
      invariant at <= |retry|
      invariant forall i :: 0 <= i < at ==> retry[i].due <= due
    {
      at := at + 1;
    }
  }

  lemma InsertSorted(retry: seq<Entry>, e: Entry, at: nat)
    requires Sorted(retry) && Slot(retry, e.due, at)
    ensures Sorted(retry[..at] + [e] + retry[at..])
  {
  }

  lemma InsertMembers(retry: seq<Entry>, e: Entry, at: nat)
    requires Members(retry) && at <= |retry| && forall f :: f in retry ==> f.job != e.job
    ensures Members(retry[..at] + [e] + retry[at..])
  {
    forall i | 0 <= i < |retry|
      ensures retry[i].job != e.job
    {
      assert retry[i] in retry;
    }
  }

  lemma ZAddKeeps(retry: seq<Entry>, due: int, job: Job, at: nat)
    requires Sorted(retry) && Members(retry) && Slot(Without(retry, job), due, at)
    ensures Sorted(ZAdd(retry, due, job, at)) && Members(ZAdd(retry, due, job, at))
  {
    WithoutKeeps(retry, job);
    InsertSorted(Without(retry, job), Entry(due, job), at);
    InsertMembers(Without(retry, job), Entry(due, job), at);
  }

  lemma WithoutKeeps(retry: seq<Entry>, job: Job)
    requires Sorted(retry) && Members(retry)
    ensures Sorted(Without(retry, job)) && Members(Without(retry, job))
  {
    KeepSorted(retry, (e: Entry) => e.job != job);
    KeepMembers(retry, (e: Entry) => e.job != job);
  }

  /** Due for the sweep at the given whole second. */
  predicate Due(e: Entry, second: int) {
    0 <= e.due <= second
  }

  function DueEntries(retry: seq<Entry>, second: int): seq<Entry> {
    Keep(retry, (e: Entry) => Due(e, second))
  }

  function LaterEntries(retry: seq<Entry>, second: int): seq<Entry> {
    Keep(retry, (e: Entry) => !Due(e, second))
  }

  /** ZREM, member after member. */
  function AllWithout(retry: seq<Entry>, gone: seq<Entry>): seq<Entry> {
    if gone == [] then retry else Without(AllWithout(retry, gone[..|gone| - 1]), gone[|gone| - 1].job)
  }

  predicate Absent(e: Entry, gone: seq<Entry>) {
    forall i :: 0 <= i < |gone| ==> gone[i].job != e.job
  }

  lemma {:induction false} AllWithoutKeeps(retry: seq<Entry>, gone: seq<Entry>, p: Entry -> bool)
    requires forall e :: e in retry ==> p(e) == Absent(e, gone)
    ensures AllWithout(retry, gone) == Keep(retry, p)
  {
    if gone == [] {
      KeepAll(retry, p);
    } else {
      var n := |gone| - 1;
      AllWithoutKeeps(retry, gone[..n], (e: Entry) => Absent(e, gone[..n]));
      forall e | e in retry
        ensures Absent(e, gone) == (Absent(e, gone[..n]) && e.job != gone[n].job)
      {
        AbsentStep(e, gone);
      }
      KeepTwice(retry, (e: Entry) => Absent(e, gone[..n]), (e: Entry) => e.job != gone[n].job, p);
    }
  }

  lemma AbsentStep(e: Entry, gone: seq<Entry>)
    requires gone != []
    ensures Absent(e, gone) == (Absent(e, gone[..|gone| - 1]) && e.job != gone[|gone| - 1].job)
  {
    assert gone == gone[..|gone| - 1] + [gone[|gone| - 1]];
  }

  lemma OneEntryPerJob(retry: seq<Entry>, e: Entry, f: Entry)
    requires Members(retry) && e in retry && f in retry && e.job == f.job
    ensures e == f
  {
  }

  lemma AbsentIffLater(retry: seq<Entry>, second: int, e: Entry)
    requires Members(retry) && e in retry
    ensures Absent(e, DueEntries(retry, second)) == !Due(e, second)
  {
    var due := DueEntries(retry, second);
    if Due(e, second) {
      assert e in due;
      var i :| 0 <= i < |due| && due[i] == e;
    } else {
      forall i | 0 <= i < |due|
        ensures due[i].job != e.job
      {
        assert due[i] in due;
        if due[i].job == e.job { OneEntryPerJob(retry, e, due[i]); }
      }
    }
  }

  /** Removing the due members one after the other leaves exactly the later ones. */
  lemma AllDueRemoved(retry: seq<Entry>, second: int)
    requires Members(retry)
    ensures AllWithout(retry, DueEntries(retry, second)) == LaterEntries(retry, second)
  {
    forall e | e in retry
      ensures Absent(e, DueEntries(retry, second)) == !Due(e, second)
    {
      AbsentIffLater(retry, second, e);
    }
    AllWithoutKeeps(retry, DueEntries(retry, second), (e: Entry) => !Due(e, second));
  }

  // ----- the operations -----

  function EnqueueSpec(s: Store, job: Job, now: int): Store {
    PushReady(s, Enqueued(job, now))
  }

  /** The first of the lists asked for that is not empty. */
  function FirstNonEmpty(s: Store, order: seq<Priority>): Option<Priority> {
    if order == [] then None
    else if ReadyList(s, order[0]) != [] then Some(order[0])
    else FirstNonEmpty(s, order[1..])
  }

  lemma {:induction false} FirstNonEmptyFacts(s: Store, order: seq<Priority>)
    ensures FirstNonEmpty(s, order) == None <==> forall i :: 0 <= i < |order| ==> ReadyList(s, order[i]) == []
    ensures FirstNonEmpty(s, order) != None ==>
              exists i :: 0 <= i < |order| && FirstNonEmpty(s, order) == Some(order[i]) && ReadyList(s, order[i]) != []
                          && forall j :: 0 <= j < i ==> ReadyList(s, order[j]) == []
  {
    if order != [] && ReadyList(s, order[0]) == [] {
      FirstNonEmptyFacts(s, order[1..]);
      forall i | 1 <= i < |order|
        ensures order[i] == order[1..][i - 1]
      {
      }
      if FirstNonEmpty(s, order) != None {
        var i :| 0 <= i < |order[1..]| && FirstNonEmpty(s, order) == Some(order[1..][i])
                 && ReadyList(s, order[1..][i]) != []
                 && forall j :: 0 <= j < i ==> ReadyList(s, order[1..][j]) == [];
        assert order[i + 1] == order[1..][i];
        forall j | 0 <= j < i + 1
          ensures ReadyList(s, order[j]) == []
        {
          if j > 0 { assert order[j] == order[1..][j - 1]; }
        }
      }
    }
  }

  /** The record and the handle are written lag after the job was stamped. */
  function DequeueSpec(s: Store, p: Priority, worker: string, now: int, lag: int): Store
    requires ReadyList(s, p) != []
  {
    var job := Taken(ReadyList(s, p)[0], now);
    s.(ready := s.ready[p := ReadyList(s, p)[1..]],
       records := s.records[job.id := Record(job, now + lag + PROCESSING_TIMEOUT)],
       processing := s.processing[worker :=
         Handles([job.id] + LiveHandles(s, worker, now + lag), now + lag + PROCESSING_TIMEOUT)])
  }

  function RequeueSpec(s: Store, job: Job, due: int, at: nat): Store
    requires at <= |Without(s.retry, job)|
  {
    s.(retry := ZAdd(s.retry, due, job, at))
  }

  /** When a failed job may be tried again, in whole seconds. */
  function RetryDue(job: Job, now: int): int
    requires job.retryCount >= 0
  {
    Unix(now + Backoff(job.retryCount))
  }

  function CompleteSpec(s: Store, job: Job, success: bool, worker: string, now: int, at: nat): Store
    requires job.retryCount >= 0
    requires !success && Failed(job).retryCount < MAX_RETRIES ==> at <= |Without(s.retry, Failed(job))|
  {
    var t := DropRecord(DropHandle(s, worker, job.id, now), job.id);
    if success then t
    else if Failed(job).retryCount >= MAX_RETRIES then t.(failed := [Failed(job)] + t.failed)
    else RequeueSpec(t, Failed(job), RetryDue(Failed(job), now), at)
  }

  /** Push the due jobs one after the other. */
  function PromoteAll(s: Store, due: seq<Entry>, now: int): Store {
    if due == [] then s
    else PushReady(PromoteAll(s, due[..|due| - 1], now), Promoted(due[|due| - 1].job, now))
  }

  function SweepSpec(s: Store, now: int): Store {
    PromoteAll(s, DueEntries(s.retry, Unix(now)), now).(retry := LaterEntries(s.retry, Unix(now)))
  }

  /** Whether the reaper puts the job behind a handle back. */
  predicate Stale(s: Store, id: string, now: int) {
    LiveRecord(s, id, now) && now - s.records[id].job.visibilityStart >= PROCESSING_TIMEOUT
  }

  function ReapOne(s: Store, worker: string, id: string, now: int): Store {
    if Stale(s, id, now) then
      PushReady(DropRecord(DropHandle(s, worker, id, now), id), Reaped(s.records[id].job, now))
    else s
  }

  function ReapSpec(s: Store, worker: string, ids: seq<string>, now: int): Store {
    if ids == [] then s
    else ReapOne(ReapSpec(s, worker, ids[..|ids| - 1], now), worker, ids[|ids| - 1], now)
  }
}
