/** What one retry sweep does, and the order of dequeues. */
module Recovery {
  import opened Options
  import opened Jobs
  import opened Lists
  import opened Store
  import opened Rules
  import opened Frontier
  import opened Conservation
  import opened Scores

  // ----- one retry sweep -----

  lemma {:induction false} KeepPartitions(retry: seq<Entry>, p: Entry -> bool, q: Entry -> bool)
    requires forall e :: p(e) != q(e)
    ensures multiset(retry) == multiset(Keep(retry, p)) + multiset(Keep(retry, q))
  {
    if retry == [] {
    } else {
      KeepPartitions(retry[1..], p, q);
      assert retry == [retry[0]] + retry[1..];
    }
  }

  /**
   * One sweep is a stable partition: the entries due at this second leave the retry set, the others
   * stay in order, and every ready list is extended by its due jobs, earliest first.
   */
  lemma SweepIsStablePartition(s: Store, now: int, p: Priority)
    requires Sorted(s.retry) && Members(s.retry)
    ensures var due, t := DueEntries(s.retry, Unix(now)), SweepSpec(s, now);
            && multiset(s.retry) == multiset(due) + multiset(t.retry)
            && (forall e :: e in t.retry <==> e in s.retry && !(0 <= e.due <= Unix(now)))
            && Sorted(due) && Sorted(t.retry)
            && ReadyList(t, p) == ReadyList(s, p) + Chosen(due, now, p)
            && t == s.(ready := t.ready, retry := t.retry)
  {
    var due := DueEntries(s.retry, Unix(now));
    KeepPartitions(s.retry, (e: Entry) => Due(e, Unix(now)), (e: Entry) => !Due(e, Unix(now)));
    KeepSorted(s.retry, (e: Entry) => Due(e, Unix(now)));
    KeepSorted(s.retry, (e: Entry) => !Due(e, Unix(now)));
    PromotedLists(s, due, now, p);
    PromoteFrame(s, due, now);
  }

  // ----- the order of dequeues -----

  function Class(p: Priority): nat {
    match p case Critical => 0 case High => 1 case Normal => 2 case Low => 3 case Unset => 4
  }

  lemma HighestFirst(s: Store, p: Priority, q: Priority)
    requires FirstNonEmpty(s, QUEUE_ORDER) == Some(p) && Class(q) < Class(p)
    ensures ReadyList(s, q) == []
  {
    assert QUEUE_ORDER[0] == Critical && QUEUE_ORDER[1] == High && QUEUE_ORDER[2] == Normal && QUEUE_ORDER[3] == Low;
    FirstNonEmptyFacts(s, QUEUE_ORDER);
    assert QUEUE_ORDER[Class(q)] == q;
  }

  /**
   * In every run a worker that asks in the fixed order takes the oldest job of the highest class
   * there is: no ready job anywhere has a score in a higher class. It finds nothing exactly when no
   * job is ready.
   */
  lemma TakesHighestClass(steps: seq<Step>)
    ensures var s := After(steps).store;
            FirstNonEmpty(s, QUEUE_ORDER) == None <==> forall q: Priority :: ReadyList(s, q) == []
    ensures var s := After(steps).store;
            FirstNonEmpty(s, QUEUE_ORDER) != None ==>
              var p := FirstNonEmpty(s, QUEUE_ORDER).value;
              && ReadyList(s, p) != []
              && forall q: Priority, j :: j in ReadyList(s, q) ==>
                   Class(ScoreToPriority(ReadyList(s, p)[0].baseScore)) <= Class(ScoreToPriority(j.baseScore))
  {
    PriorityFollowsScore(steps);
    HighestClass(After(steps));
  }

  /**
   * In points: for each of the bounds 30, 60 and 90, if any ready job reaches it, so does the one that is
   * taken next.
   */
  lemma TakesHighestBand(steps: seq<Step>, q: Priority, job: Job, bound: int)
    requires job in ReadyList(After(steps).store, q) && bound in {30, 60, 90} && job.baseScore >= bound
    ensures var s := After(steps).store;
            && FirstNonEmpty(s, QUEUE_ORDER) != None
            && var list := ReadyList(s, FirstNonEmpty(s, QUEUE_ORDER).value);
               list != [] && list[0].baseScore >= bound
  {
    TakesHighestClass(steps);
    var s := After(steps).store;
    var first := ReadyList(s, FirstNonEmpty(s, QUEUE_ORDER).value)[0];
    PriorityInPoints(job.baseScore);
    PriorityInPoints(first.baseScore);
  }

  lemma HighestClass(s: State)
    requires InOrder(s) && ReadyList(s.store, Unset) == []
    ensures FirstNonEmpty(s.store, QUEUE_ORDER) == None <==> forall q: Priority :: ReadyList(s.store, q) == []
    ensures FirstNonEmpty(s.store, QUEUE_ORDER) != None ==>
              var p := FirstNonEmpty(s.store, QUEUE_ORDER).value;
              && ReadyList(s.store, p) != []
              && forall q: Priority, j :: j in ReadyList(s.store, q) ==>
                   Class(ScoreToPriority(ReadyList(s.store, p)[0].baseScore)) <= Class(ScoreToPriority(j.baseScore))
  {
    FirstNonEmptyFacts(s.store, QUEUE_ORDER);
    if FirstNonEmpty(s.store, QUEUE_ORDER) == None {
      forall q: Priority
        ensures ReadyList(s.store, q) == []
      {
        if q != Unset { assert QUEUE_ORDER[Class(q)] == q; }
      }
    } else {
      var p := FirstNonEmpty(s.store, QUEUE_ORDER).value;
      ListedHasPriority(s, p, ReadyList(s.store, p)[0]);
      forall q: Priority, j | j in ReadyList(s.store, q)
        ensures Class(p) <= Class(ScoreToPriority(j.baseScore))
      {
        ListedHasPriority(s, q, j);
        if Class(q) < Class(p) { HighestFirst(s.store, p, q); }
      }
    }
  }
}
