/** Any number of indexer goroutines on one message stream: what holds over every run. */
module StreamRuns {
  import opened Lists
  import opened Streams

  /** A goroutine reads under the name of its worker; the goroutines of one worker share the name. */
  datatype Goroutine = Goroutine(consumer: string, index: nat)

  datatype Hold = Hold(who: Goroutine, sid: nat)

  /** Between the acknowledgement of a failed message and its return to the stream. */
  datatype Sleeper = Sleeper(who: Goroutine, msg: Msg)

  /** lost are messages of goroutines that crashed between the two; stale were completed when no longer pending. */
  datatype System = System(
    stream: Stream, held: seq<Hold>, sleeping: seq<Sleeper>, done: seq<Msg>, dead: seq<Msg>, lost: seq<Msg>,
    added: seq<Msg>, completed: seq<Msg>, stale: seq<Msg>)

  const Start := System(Stream([], 0, []), [], [], [], [], [], [], [], [])

  datatype Step =
    | Publish(id: string)
    | Fetch(who: Goroutine, idle: set<nat>)
    | Finish(i: nat, success: bool)
    | Wake(i: nat)
    | Crash(who: Goroutine)

  predicate Good(s: System) {
    && s.stream.Valid()
    && forall i :: 0 <= i < |s.held| ==> s.held[i].sid < s.stream.delivered
  }

  predicate Asleep(s: System, who: Goroutine) {
    exists i :: 0 <= i < |s.sleeping| && s.sleeping[i].who == who
  }

  predicate Holding(held: seq<Hold>, who: Goroutine) {
    exists i :: 0 <= i < |held| && held[i].who == who
  }

  /** A goroutine reads when it has worked off its last batch, and works off its batch from the front. */
  predicate Enabled(s: System, step: Step) {
    match step
    case Publish(_) => true
    case Fetch(who, _) => !Holding(s.held, who) && !Asleep(s, who)
    case Finish(i, _) => i < |s.held| && !Holding(s.held[..i], s.held[i].who) && !Asleep(s, s.held[i].who)
    case Wake(i) => i < |s.sleeping|
    case Crash(who) => true
  }

  function Holds(who: Goroutine, sids: seq<nat>): (r: seq<Hold>)
    ensures |r| == |sids| && forall i :: 0 <= i < |r| ==> r[i] == Hold(who, sids[i])
  {
    seq(|sids|, i requires 0 <= i < |sids| => Hold(who, sids[i]))
  }

  function OthersHeld(held: seq<Hold>, who: Goroutine): (r: seq<Hold>)
    ensures forall h :: h in r <==> h in held && h.who != who
  {
    if held == [] then []
    else (if held[0].who == who then [] else [held[0]]) + OthersHeld(held[1..], who)
  }

  function OthersAsleep(sleeping: seq<Sleeper>, who: Goroutine): seq<Sleeper> {
    if sleeping == [] then []
    else (if sleeping[0].who == who then [] else [sleeping[0]]) + OthersAsleep(sleeping[1..], who)
  }

  function MsgsOf(sleeping: seq<Sleeper>, who: Goroutine): seq<Msg> {
    if sleeping == [] then []
    else (if sleeping[0].who == who then [sleeping[0].msg] else []) + MsgsOf(sleeping[1..], who)
  }

  /** The message a goroutine works on; processMessage has marked it. */
  function Working(s: System, i: nat): Msg
    requires Good(s) && i < |s.held|
  {
    s.stream.entries[s.held[i].sid].(status := Processing)
  }

  function AfterFinish(s: System, i: nat, success: bool): System
    requires Good(s) && i < |s.held|
  {
    var h, msg := s.held[i], Working(s, i);
    var out := Outcome(msg, success);
    s.(stream := AckSpec(s.stream, h.sid),
       held := RemoveAt(s.held, i),
       sleeping := if out.status == Processing then s.sleeping + [Sleeper(h.who, out)] else s.sleeping,
       done := if out.status == Done then s.done + [out] else s.done,
       dead := if out.status == Dead then s.dead + [out] else s.dead,
       completed := s.completed + [msg],
       stale := if IsPending(s.stream.pending, h.sid) then s.stale else s.stale + [msg])
  }

  /** A step that is not enabled leaves everything as it is. */
  function Next(s: System, step: Step): System
    requires Good(s)
  {
    if !Enabled(s, step) then s
    else
      match step
      case Publish(id) => s.(stream := AddSpec(s.stream, NewMsg(id)), added := s.added + [NewMsg(id)])
      case Fetch(who, idle) =>
        var (stream, sids) := GetSpec(s.stream, who.consumer, idle);
        s.(stream := stream, held := s.held + Holds(who, sids))
      case Finish(i, success) => AfterFinish(s, i, success)
      case Wake(i) =>
        s.(stream := AddSpec(s.stream, s.sleeping[i].msg), sleeping := RemoveAt(s.sleeping, i))
      case Crash(who) =>
        s.(held := OthersHeld(s.held, who), sleeping := OthersAsleep(s.sleeping, who),
           lost := s.lost + MsgsOf(s.sleeping, who))
  }

  lemma StepKeepsGood(s: System, step: Step)
    requires Good(s)
    ensures Good(Next(s, step))
  {
    var t := Next(s, step);
    match step
    case Fetch(who, idle) =>
      if Enabled(s, step) {
        FetchedIsPending(s.stream, who.consumer, idle);
        var sids := GetSpec(s.stream, who.consumer, idle).1;
        forall i | 0 <= i < |sids|
          ensures sids[i] < t.stream.delivered
        {
          assert sids[i] in sids;
        }
      }
    case Crash(who) =>
      forall i | 0 <= i < |t.held|
        ensures t.held[i].sid < t.stream.delivered
      {
        assert t.held[i] in s.held;
      }
    case _ =>
  }

  function After(steps: seq<Step>): (s: System)
    ensures Good(s)
  {
    if steps == [] then Start
    else
      StepKeepsGood(After(steps[..|steps| - 1]), steps[|steps| - 1]);
      Next(After(steps[..|steps| - 1]), steps[|steps| - 1])
  }

  // ----- counting copies -----

  function Fresh(s: Stream): seq<Msg>
    requires s.Valid()
  {
    s.entries[s.delivered..]
  }

  function PendingMsgs(s: Stream): seq<Msg>
    requires s.Valid()
  {
    seq(|s.pending|, i requires 0 <= i < |s.pending| => s.entries[s.pending[i].sid])
  }

  function SleeperMsgs(sleeping: seq<Sleeper>): seq<Msg> {
    seq(|sleeping|, i requires 0 <= i < |sleeping| => sleeping[i].msg)
  }

  function InStream(s: Stream, f: Msg -> nat): nat
    requires s.Valid()
  {
    Sum(Fresh(s), f) + Sum(PendingMsgs(s), f)
  }

  /** The weight of all copies: undelivered, pending, on the way back, done, dead and lost. */
  function Copies(s: System, f: Msg -> nat): nat
    requires Good(s)
  {
    InStream(s.stream, f) + Sum(SleeperMsgs(s.sleeping), f) + Sum(s.done, f) + Sum(s.dead, f) + Sum(s.lost, f)
  }

  lemma AddCount(s: Stream, msg: Msg, f: Msg -> nat)
    requires s.Valid()
    ensures InStream(AddSpec(s, msg), f) == InStream(s, f) + f(msg)
  {
    var t := AddSpec(s, msg);
    assert Fresh(t) == Fresh(s) + [msg];
    assert PendingMsgs(t) == PendingMsgs(s);
    SumAppend(Fresh(s), msg, f);
  }

  lemma AckCount(s: Stream, sid: nat, f: Msg -> nat)
    requires s.Valid() && sid < s.delivered
    ensures InStream(s, f) == InStream(AckSpec(s, sid), f) + if IsPending(s.pending, sid) then f(s.entries[sid]) else 0
  {
    var i := Find(s.pending, sid);
    if i < |s.pending| {
      AckPending(s, sid);
      SumRemoveAt(PendingMsgs(s), i, f);
    }
  }

  lemma AckPending(s: Stream, sid: nat)
    requires s.Valid() && IsPending(s.pending, sid)
    ensures PendingMsgs(AckSpec(s, sid)) == RemoveAt(PendingMsgs(s), Find(s.pending, sid))
  {
  }

  lemma GetCount(s: Stream, consumer: string, idle: set<nat>, f: Msg -> nat)
    requires s.Valid()
    ensures InStream(GetSpec(s, consumer, idle).0, f) == InStream(s, f)
  {
    var t := GetSpec(s, consumer, idle).0;
    if s.delivered < |s.entries| {
      var moved := s.entries[s.delivered..t.delivered];
      assert Fresh(s) == moved + Fresh(t);
      assert PendingMsgs(t) == PendingMsgs(s) + moved;
      SumConcat(moved, Fresh(t), f);
      SumConcat(PendingMsgs(s), moved, f);
    } else {
      assert PendingMsgs(t) == PendingMsgs(s);
    }
  }

  /** The weight a crash moves, and the weight it leaves. */
  lemma {:induction false} CrashCount(sleeping: seq<Sleeper>, who: Goroutine, f: Msg -> nat)
    ensures Sum(SleeperMsgs(sleeping), f)
         == Sum(SleeperMsgs(OthersAsleep(sleeping, who)), f) + Sum(MsgsOf(sleeping, who), f)
  {
    if sleeping == [] {
    } else {
      var first, rest := sleeping[0], sleeping[1..];
      var others, gone := OthersAsleep(rest, who), MsgsOf(rest, who);
      CrashCount(rest, who, f);
      assert sleeping == [first] + rest;
      SleeperCons(first, rest, f);
      if first.who == who {
        assert OthersAsleep(sleeping, who) == others && MsgsOf(sleeping, who) == [first.msg] + gone;
        SumCons(first.msg, gone, f);
      } else {
        assert OthersAsleep(sleeping, who) == [first] + others && MsgsOf(sleeping, who) == gone;
        SleeperCons(first, others, f);
      }
    }
  }

  lemma SleeperCons(first: Sleeper, rest: seq<Sleeper>, f: Msg -> nat)
    ensures Sum(SleeperMsgs([first] + rest), f) == f(first.msg) + Sum(SleeperMsgs(rest), f)
  {
    assert SleeperMsgs([first] + rest) == [first.msg] + SleeperMsgs(rest);
    SumCons(first.msg, SleeperMsgs(rest), f);
  }

  /** What a step adds to the weight of all copies, and what it takes away. */
  function Gained(s: System, step: Step, f: Msg -> nat): nat
    requires Good(s)
  {
    match step
    case Publish(id) => f(NewMsg(id))
    case Finish(i, success) => if Enabled(s, step) then f(Outcome(Working(s, i), success)) else 0
    case _ => 0
  }

  function Dropped(s: System, step: Step, f: Msg -> nat): nat
    requires Good(s)
  {
    if step.Finish? && Enabled(s, step) && IsPending(s.stream.pending, s.held[step.i].sid)
    then f(s.stream.entries[s.held[step.i].sid]) else 0
  }

  lemma FinishCount(s: System, i: nat, success: bool, f: Msg -> nat)
    requires Good(s) && i < |s.held|
    ensures Good(AfterFinish(s, i, success))
    ensures Copies(AfterFinish(s, i, success), f)
         + (if IsPending(s.stream.pending, s.held[i].sid) then f(s.stream.entries[s.held[i].sid]) else 0)
         == Copies(s, f) + f(Outcome(Working(s, i), success))
  {
    var out, h, t := Outcome(Working(s, i), success), s.held[i], AfterFinish(s, i, success);
    AckCount(s.stream, h.sid, f);
    assert Sum(SleeperMsgs(t.sleeping), f) + Sum(t.done, f) + Sum(t.dead, f)
        == Sum(SleeperMsgs(s.sleeping), f) + Sum(s.done, f) + Sum(s.dead, f) + f(out) by {
      OutcomeCount(s, h.who, out, f);
    }
  }

  /** The outcome of a completion is filed in one place. */
  lemma OutcomeCount(s: System, who: Goroutine, out: Msg, f: Msg -> nat)
    requires out.status != Ready
    ensures Sum(SleeperMsgs(if out.status == Processing then s.sleeping + [Sleeper(who, out)] else s.sleeping), f)
          + Sum(if out.status == Done then s.done + [out] else s.done, f)
          + Sum(if out.status == Dead then s.dead + [out] else s.dead, f)
         == Sum(SleeperMsgs(s.sleeping), f) + Sum(s.done, f) + Sum(s.dead, f) + f(out)
  {
    match out.status
    case Done => SumAppend(s.done, out, f);
    case Dead => SumAppend(s.dead, out, f);
    case Processing =>
      assert SleeperMsgs(s.sleeping + [Sleeper(who, out)]) == SleeperMsgs(s.sleeping) + [out];
      SumAppend(SleeperMsgs(s.sleeping), out, f);
    case Ready =>
  }

  lemma WakeCount(s: System, i: nat, f: Msg -> nat)
    requires Good(s) && i < |s.sleeping|
    ensures InStream(AddSpec(s.stream, s.sleeping[i].msg), f) + Sum(SleeperMsgs(RemoveAt(s.sleeping, i)), f)
         == InStream(s.stream, f) + Sum(SleeperMsgs(s.sleeping), f)
  {
    AddCount(s.stream, s.sleeping[i].msg, f);
    SumRemoveAt(SleeperMsgs(s.sleeping), i, f);
    assert SleeperMsgs(RemoveAt(s.sleeping, i)) == RemoveAt(SleeperMsgs(s.sleeping), i);
  }

  lemma StepCount(s: System, step: Step, f: Msg -> nat)
    requires Good(s)
    ensures Good(Next(s, step))
    ensures Copies(Next(s, step), f) + Dropped(s, step, f) == Copies(s, f) + Gained(s, step, f)
  {
    StepKeepsGood(s, step);
    if Enabled(s, step) {
      match step
      case Publish(id) => AddCount(s.stream, NewMsg(id), f);
      case Fetch(who, idle) => GetCount(s.stream, who.consumer, idle, f);
      case Finish(i, success) => FinishCount(s, i, success, f);
      case Wake(i) => WakeCount(s, i, f);
      case Crash(who) =>
        CrashCount(s.sleeping, who, f);
        SumConcat(s.lost, MsgsOf(s.sleeping, who), f);
    }
  }

  /** CompleteMessage is a Finish followed, for a message that is tried again, by its Wake. */
  lemma CompleteIsTwoSteps(s: System, i: nat, success: bool)
    requires Good(s) && Enabled(s, Finish(i, success))
    ensures var t := Next(s, Finish(i, success));
            Good(t) &&
            (if |t.sleeping| > |s.sleeping| then Next(t, Wake(|s.sleeping|)) else t).stream
            == CompleteSpec(s.stream, s.held[i].sid, Working(s, i), success)
  {
    StepKeepsGood(s, Finish(i, success));
  }

  // ----- the counting law -----

  /** Counts the messages whose ID is picked. */
  function Picked(pick: string -> bool): Msg -> nat {
    (m: Msg) => if pick(m.id) then 1 else 0
  }

  /** The law itself, for one system. */
  predicate Balanced(s: System, f: Msg -> nat)
    requires Good(s)
  {
    Copies(s, f) == Sum(s.added, f) + Sum(s.stale, f)
  }

  lemma FinishKeepsBalance(s: System, i: nat, success: bool, pick: string -> bool)
    requires Good(s) && Balanced(s, Picked(pick)) && i < |s.held|
    ensures Good(AfterFinish(s, i, success)) && Balanced(AfterFinish(s, i, success), Picked(pick))
  {
    FinishCount(s, i, success, Picked(pick));
    SumAppend(s.stale, Working(s, i), Picked(pick));
  }

  lemma StepKeepsBalance(s: System, step: Step, pick: string -> bool)
    requires Good(s) && Balanced(s, Picked(pick))
    ensures Good(Next(s, step)) && Balanced(Next(s, step), Picked(pick))
  {
    if step.Finish? {
      if Enabled(s, step) { FinishKeepsBalance(s, step.i, step.success, pick); }
    } else {
      StepCount(s, step, Picked(pick));
      if step.Publish? { SumAppend(s.added, NewMsg(step.id), Picked(pick)); }
    }
  }

  /** Every message that was added has a copy somewhere; each stale completion makes one copy more. */
  lemma {:induction false} CopiesAddUp(steps: seq<Step>, pick: string -> bool)
    ensures Balanced(After(steps), Picked(pick))
  {
    if steps == [] {
    } else {
      CopiesAddUp(steps[..|steps| - 1], pick);
      StepKeepsBalance(After(steps[..|steps| - 1]), steps[|steps| - 1], pick);
    }
  }

  /** As long as nobody crashes between acknowledging and adding back, no message is ever gone. */
  lemma NoMessageGone(steps: seq<Step>, id: string)
    requires var pick := (x: string) => x == id;
             Sum(After(steps).lost, Picked(pick)) == 0 && Sum(After(steps).added, Picked(pick)) > 0
    ensures var s, f := After(steps), Picked((x: string) => x == id);
            InStream(s.stream, f) + Sum(SleeperMsgs(s.sleeping), f) + Sum(s.done, f) + Sum(s.dead, f) > 0
  {
    CopiesAddUp(steps, (x: string) => x == id);
  }

  // ----- retry counts -----

  predicate Live(m: Msg) {
    m.retryCount <= 5 && m.status in {Ready, Processing}
  }

  predicate AllLive(ms: seq<Msg>) {
    forall i :: 0 <= i < |ms| ==> Live(ms[i])
  }

  predicate Bounded(s: System) {
    && AllLive(s.stream.entries) && AllLive(SleeperMsgs(s.sleeping)) && AllLive(s.lost)
    && (forall i :: 0 <= i < |s.done| ==> s.done[i].status == Done && s.done[i].retryCount <= 5)
    && (forall i :: 0 <= i < |s.dead| ==> s.dead[i].status == Dead && s.dead[i].retryCount == 6)
  }

  lemma {:induction false} CrashLive(sleeping: seq<Sleeper>, who: Goroutine)
    requires AllLive(SleeperMsgs(sleeping))
    ensures AllLive(SleeperMsgs(OthersAsleep(sleeping, who))) && AllLive(MsgsOf(sleeping, who))
  {
    if sleeping == [] {
    } else {
      var rest := sleeping[1..];
      assert SleeperMsgs(sleeping)[0] == sleeping[0].msg;
      assert SleeperMsgs(rest) == SleeperMsgs(sleeping)[1..];
      CrashLive(rest, who);
      if sleeping[0].who == who {
        assert OthersAsleep(sleeping, who) == OthersAsleep(rest, who);
      } else {
        var others := OthersAsleep(rest, who);
        assert SleeperMsgs([sleeping[0]] + others) == [sleeping[0].msg] + SleeperMsgs(others);
        assert MsgsOf(sleeping, who) == MsgsOf(rest, who);
      }
    }
  }

  lemma FinishKeepsBounds(s: System, i: nat, success: bool)
    requires Good(s) && Bounded(s) && i < |s.held|
    ensures Bounded(AfterFinish(s, i, success))
  {
    var out, h := Outcome(Working(s, i), success), s.held[i];
    assert Live(s.stream.entries[h.sid]);
    assert SleeperMsgs(s.sleeping + [Sleeper(h.who, out)]) == SleeperMsgs(s.sleeping) + [out];
  }

  lemma StepKeepsBounds(s: System, step: Step)
    requires Good(s) && Bounded(s)
    ensures Bounded(Next(s, step))
  {
    if Enabled(s, step) {
      match step
      case Finish(i, success) => FinishKeepsBounds(s, i, success);
      case Wake(i) =>
        assert SleeperMsgs(s.sleeping)[i] == s.sleeping[i].msg;
        assert SleeperMsgs(RemoveAt(s.sleeping, i)) == RemoveAt(SleeperMsgs(s.sleeping), i);
      case Crash(who) => CrashLive(s.sleeping, who);
      case _ =>
    }
  }

  /** Everything in the stream has failed five times at most, and a dead message exactly six times. */
  lemma {:induction false} RetryCountsBounded(steps: seq<Step>)
    ensures Bounded(After(steps))
  {
    if steps == [] {
    } else {
      RetryCountsBounded(steps[..|steps| - 1]);
      StepKeepsBounds(After(steps[..|steps| - 1]), steps[|steps| - 1]);
    }
  }

  // ----- runs in which nobody is handed what another goroutine works on -----

  function HeldSids(held: seq<Hold>): set<nat> {
    set i | 0 <= i < |held| :: held[i].sid
  }

  /** One goroutine for each name, and claims only of entries nobody works on. */
  predicate CarefulStep(s: System, step: Step) {
    step.Fetch? ==> step.who.index == 0 && step.idle !! HeldSids(s.held)
  }

  predicate Careful(steps: seq<Step>) {
    steps == [] ||
    (Careful(steps[..|steps| - 1]) && CarefulStep(After(steps[..|steps| - 1]), steps[|steps| - 1]))
  }

  predicate OnceEach(held: seq<Hold>) {
    forall i, j :: 0 <= i < j < |held| ==> held[i].sid != held[j].sid
  }

  /** What is held is held once, and is pending for its holder. */
  predicate Exclusive(s: System) {
    && OnceEach(s.held)
    && (forall h :: h in s.held ==> h.who.index == 0 && Owned(h.sid, h.who.consumer) in s.stream.pending)
  }

  lemma InFound(pending: seq<Owned>, o: Owned)
    requires o in pending
    ensures IsPending(pending, o.sid)
  {
    var i :| 0 <= i < |pending| && pending[i] == o;
  }

  lemma SidUnique(s: Stream, o: Owned, o': Owned)
    requires s.Valid() && o in s.pending && o' in s.pending && o.sid == o'.sid
    ensures o == o'
  {
    var i :| 0 <= i < |s.pending| && s.pending[i] == o;
    var j :| 0 <= j < |s.pending| && s.pending[j] == o';
  }

  /** A careful read returns each entry once, none that is worked on, and leaves what is worked on with its owner. */
  lemma CarefulRead(s: System, who: Goroutine, idle: set<nat>)
    requires Good(s) && Exclusive(s) && !Holding(s.held, who) && who.index == 0 && idle !! HeldSids(s.held)
    ensures var (t, sids) := GetSpec(s.stream, who.consumer, idle);
            && Increasing(sids)
            && (forall k :: k in sids ==> k !in HeldSids(s.held))
            && (forall h :: h in s.held ==> Owned(h.sid, h.who.consumer) in t.pending)
  {
    var (t, sids) := GetSpec(s.stream, who.consumer, idle);
    if s.stream.delivered < |s.stream.entries| {
    } else if ReadOwn(s.stream.pending, who.consumer, BATCH) != [] {
      ReadOwnSorted(s.stream.pending, who.consumer, BATCH);
      ReadOwnPending(s.stream.pending, who.consumer, BATCH);
      forall k | k in sids
        ensures k !in HeldSids(s.held)
      {
        OwnNotHeld(s, who, k);
      }
    } else {
      ClaimSorted(s.stream.pending, idle, BATCH);
      ClaimPending(s.stream.pending, idle, BATCH);
      forall h | h in s.held
        ensures Owned(h.sid, h.who.consumer) in t.pending
      {
        assert h.sid in HeldSids(s.held);
        var i :| 0 <= i < |s.stream.pending| && s.stream.pending[i] == Owned(h.sid, h.who.consumer);
        assert t.pending[i] == s.stream.pending[i];
      }
    }
  }

  lemma OwnedByHolder(s: System, who: Goroutine, i: nat)
    requires Good(s) && Exclusive(s) && who.index == 0 && i < |s.held|
    requires Owned(s.held[i].sid, who.consumer) in s.stream.pending
    ensures s.held[i].who == who
  {
    var h := s.held[i];
    assert h in s.held;
    SidUnique(s.stream, Owned(h.sid, who.consumer), Owned(h.sid, h.who.consumer));
  }

  lemma OwnNotHeld(s: System, who: Goroutine, k: nat)
    requires Good(s) && Exclusive(s) && !Holding(s.held, who) && who.index == 0
    requires Owned(k, who.consumer) in s.stream.pending
    ensures k !in HeldSids(s.held)
  {
    forall i | 0 <= i < |s.held| && s.held[i].sid == k
      ensures s.held[i].who == who
    {
      OwnedByHolder(s, who, i);
    }
  }

  lemma FetchKeepsExclusive(s: System, who: Goroutine, idle: set<nat>)
    requires Good(s) && Exclusive(s) && Enabled(s, Fetch(who, idle)) && CarefulStep(s, Fetch(who, idle))
    ensures Exclusive(Next(s, Fetch(who, idle)))
  {
    var (stream, sids) := GetSpec(s.stream, who.consumer, idle);
    CarefulRead(s, who, idle);
    FetchedIsPending(s.stream, who.consumer, idle);
    var held := s.held + Holds(who, sids);
    forall i, j | 0 <= i < j < |held|
      ensures held[i].sid != held[j].sid
    {
      if i < |s.held| <= j {
        assert held[i].sid in HeldSids(s.held);
        assert sids[j - |s.held|] in sids;
      }
    }
    forall h | h in held
      ensures h.who.index == 0 && Owned(h.sid, h.who.consumer) in stream.pending
    {
      if h !in s.held {
        var i :| 0 <= i < |sids| && h == Hold(who, sids[i]);
        assert sids[i] in sids;
      }
    }
  }

  lemma RemoveHold(held: seq<Hold>, i: nat)
    requires OnceEach(held) && i < |held|
    ensures OnceEach(RemoveAt(held, i))
    ensures forall h :: h in RemoveAt(held, i) ==> h in held && h.sid != held[i].sid
  {
    var r := RemoveAt(held, i);
    forall j | 0 <= j < |r|
      ensures r[j] in held && r[j].sid != held[i].sid
    {
      assert r[j] == held[if j < i then j else j + 1];
    }
  }

  lemma FinishKeepsExclusive(s: System, i: nat, success: bool)
    requires Good(s) && Exclusive(s) && i < |s.held|
    ensures Exclusive(AfterFinish(s, i, success)) && IsPending(s.stream.pending, s.held[i].sid)
  {
    var sid := s.held[i].sid;
    assert s.held[i] in s.held;
    InFound(s.stream.pending, Owned(sid, s.held[i].who.consumer));
    RemoveHold(s.held, i);
    forall h | h in RemoveAt(s.held, i)
      ensures Owned(h.sid, h.who.consumer) in Ack(s.stream.pending, sid)
    {
      AckKeepsOthers(s.stream.pending, sid, Owned(h.sid, h.who.consumer));
    }
  }

  lemma {:induction false} OthersDistinct(held: seq<Hold>, who: Goroutine)
    requires OnceEach(held)
    ensures OnceEach(OthersHeld(held, who))
  {
    if held == [] {
    } else {
      var rest := held[1..];
      OthersDistinct(rest, who);
      var r := OthersHeld(rest, who);
      forall i | 0 <= i < |r|
        ensures r[i].sid != held[0].sid
      {
        assert r[i] in rest;
      }
      assert OnceEach([held[0]] + r);
    }
  }

  lemma CrashKeepsExclusive(s: System, who: Goroutine)
    requires Good(s) && Exclusive(s)
    ensures Exclusive(Next(s, Crash(who)))
  {
    OthersDistinct(s.held, who);
    var t := Next(s, Crash(who));
    forall h | h in t.held
      ensures h.who.index == 0 && Owned(h.sid, h.who.consumer) in t.stream.pending
    {
      assert h in s.held;
    }
  }

  lemma StepKeepsExclusive(s: System, step: Step)
    requires Good(s) && Exclusive(s) && CarefulStep(s, step)
    ensures Exclusive(Next(s, step)) && Next(s, step).stale == s.stale
  {
    if Enabled(s, step) {
      match step
      case Fetch(who, idle) => FetchKeepsExclusive(s, who, idle);
      case Finish(i, success) => FinishKeepsExclusive(s, i, success);
      case Crash(who) => CrashKeepsExclusive(s, who);
      case _ =>
    }
  }

  lemma {:induction false} CarefulIsExclusive(steps: seq<Step>)
    requires Careful(steps)
    ensures Exclusive(After(steps)) && After(steps).stale == []
  {
    if steps == [] {
    } else {
      CarefulIsExclusive(steps[..|steps| - 1]);
      StepKeepsExclusive(After(steps[..|steps| - 1]), steps[|steps| - 1]);
    }
  }

  /** In careful runs there are exactly as many copies of a message as it was added. */
  lemma ExactlyOneCopy(steps: seq<Step>, pick: string -> bool)
    requires Careful(steps)
    ensures Copies(After(steps), Picked(pick)) == Sum(After(steps).added, Picked(pick))
  {
    CopiesAddUp(steps, pick);
    CarefulIsExclusive(steps);
  }

  // ----- how often a message is worked on -----

  /** How often a message has been completed, to judge by the copy. */
  function AttemptsOf(pick: string -> bool, m: Msg): nat {
    if !pick(m.id) then 0 else if m.status == Done then m.retryCount + 1 else m.retryCount
  }

  function Attempts(pick: string -> bool): Msg -> nat {
    (m: Msg) => AttemptsOf(pick, m)
  }

  lemma FinishKeepsAttempts(s: System, i: nat, success: bool, pick: string -> bool)
    requires Good(s) && Bounded(s) && Exclusive(s) && i < |s.held|
    requires Copies(s, Attempts(pick)) == Sum(s.completed, Picked(pick))
    ensures var t := AfterFinish(s, i, success);
            Good(t) && Copies(t, Attempts(pick)) == Sum(t.completed, Picked(pick))
  {
    assert Live(s.stream.entries[s.held[i].sid]);
    FinishCount(s, i, success, Attempts(pick));
    assert IsPending(s.stream.pending, s.held[i].sid) by { FinishKeepsExclusive(s, i, success); }
    SumAppend(s.completed, Working(s, i), Picked(pick));
  }

  lemma StepKeepsAttempts(s: System, step: Step, pick: string -> bool)
    requires Good(s) && Bounded(s) && Exclusive(s)
    requires Copies(s, Attempts(pick)) == Sum(s.completed, Picked(pick))
    ensures Good(Next(s, step)) && Copies(Next(s, step), Attempts(pick)) == Sum(Next(s, step).completed, Picked(pick))
  {
    if step.Finish? {
      if Enabled(s, step) { FinishKeepsAttempts(s, step.i, step.success, pick); }
    } else {
      StepCount(s, step, Attempts(pick));
    }
  }

  /** In careful runs the copies remember every completion. */
  lemma {:induction false} CompletionsRemembered(steps: seq<Step>, pick: string -> bool)
    requires Careful(steps)
    ensures Copies(After(steps), Attempts(pick)) == Sum(After(steps).completed, Picked(pick))
  {
    if steps == [] {
    } else {
      var before := steps[..|steps| - 1];
      CompletionsRemembered(before, pick);
      RetryCountsBounded(before);
      CarefulIsExclusive(before);
      StepKeepsAttempts(After(before), steps[|steps| - 1], pick);
    }
  }

  lemma AttemptsPerCopy(s: System, pick: string -> bool)
    requires Good(s) && Bounded(s)
    ensures Copies(s, Attempts(pick)) <= 6 * Copies(s, Picked(pick))
  {
    var f, g, k := Attempts(pick), Picked(pick), 6;
    forall m: Msg | Live(m) || m in s.done || m in s.dead
      ensures f(m) <= k * g(m)
    {
      assert f(m) == AttemptsOf(pick, m);
      if pick(m.id) { assert g(m) == 1; }
    }
    SumBound(Fresh(s.stream), f, g, k);
    SumBound(PendingMsgs(s.stream), f, g, k);
    SumBound(SleeperMsgs(s.sleeping), f, g, k);
    SumBound(s.done, f, g, k);
    SumBound(s.dead, f, g, k);
    SumBound(s.lost, f, g, k);
  }

  /** In careful runs a message is completed six times at most for each time it was added. */
  lemma SixCompletionsAtMost(steps: seq<Step>, pick: string -> bool)
    requires Careful(steps)
    ensures Sum(After(steps).completed, Picked(pick)) <= 6 * Sum(After(steps).added, Picked(pick))
  {
    CompletionsRemembered(steps, pick);
    ExactlyOneCopy(steps, pick);
    RetryCountsBounded(steps);
    AttemptsPerCopy(After(steps), pick);
  }

  // ----- runs that are not careful -----

  /** One message, pending for owner and held by the given goroutines. */
  function Fetched(id: string, owner: string, who: seq<Goroutine>): System {
    Start.(stream := Stream([NewMsg(id)], 1, [Owned(0, owner)]),
           held := seq(|who|, i requires 0 <= i < |who| => Hold(who[i], 0)), added := [NewMsg(id)])
  }

  lemma FetchIdle(s: System, who: Goroutine, idle: set<nat>)
    requires Good(s) && !Holding(s.held, who) && !Asleep(s, who)
    ensures var (stream, sids) := GetSpec(s.stream, who.consumer, idle);
            Next(s, Fetch(who, idle)) == s.(stream := stream, held := s.held + Holds(who, sids))
  {
  }

  lemma OneFresh(msg: Msg, name: string)
    ensures GetSpec(Stream([msg], 0, []), name, {}) == (Stream([msg], 1, [Owned(0, name)]), [0])
  {
    assert Range(0, 1) == [0];
    assert [] + Owning([0], name) == [Owned(0, name)];
  }

  lemma FirstFetch(id: string, a: Goroutine)
    ensures Next(Next(Start, Publish(id)), Fetch(a, {})) == Fetched(id, a.consumer, [a])
  {
    var s := Next(Start, Publish(id));
    assert s == Start.(stream := Stream([NewMsg(id)], 0, []), added := [NewMsg(id)]);
    OneFresh(NewMsg(id), a.consumer);
    FetchIdle(s, a, {});
    assert [] + Holds(a, [0]) == Fetched(id, a.consumer, [a]).held;
  }

  /** A second goroutine of the worker is handed the message the first one works on. */
  lemma SameNameFetch(id: string, a: Goroutine, b: Goroutine)
    requires a != b && a.consumer == b.consumer
    ensures Next(Fetched(id, a.consumer, [a]), Fetch(b, {})) == Fetched(id, b.consumer, [a, b])
  {
    var s := Fetched(id, a.consumer, [a]);
    assert s.stream.pending[1..] == [];
    assert ReadOwn(s.stream.pending, b.consumer, BATCH) == [0];
    FetchIdle(s, b, {});
    assert s.held + Holds(b, [0]) == Fetched(id, b.consumer, [a, b]).held;
  }

  /** So is a goroutine of another worker that claims it while it is worked on. */
  lemma ClaimingFetch(id: string, a: Goroutine, b: Goroutine)
    requires a.consumer != b.consumer
    ensures Next(Fetched(id, a.consumer, [a]), Fetch(b, {0})) == Fetched(id, b.consumer, [a, b])
  {
    var s := Fetched(id, a.consumer, [a]);
    assert s.stream.pending[1..] == [];
    assert ReadOwn(s.stream.pending, b.consumer, BATCH) == [];
    assert ClaimSids(s.stream.pending, {0}, BATCH) == [0];
    assert Claim(s.stream.pending, [0], b.consumer) == [Owned(0, b.consumer)];
    FetchIdle(s, b, {0});
    assert s.held + Holds(b, [0]) == Fetched(id, b.consumer, [a, b]).held;
  }

  lemma FinishFront(s: System, success: bool)
    requires Good(s) && s.held != [] && !Asleep(s, s.held[0].who)
    ensures Next(s, Finish(0, success)) == AfterFinish(s, 0, success)
  {
  }

  function OneLeft(id: string, a: Goroutine, b: Goroutine): System {
    Start.(stream := Stream([NewMsg(id)], 1, []), held := [Hold(b, 0)], added := [NewMsg(id)],
           sleeping := [Sleeper(a, Msg(id, 1, Processing))], completed := [NewMsg(id).(status := Processing)])
  }

  lemma FirstFails(id: string, a: Goroutine, b: Goroutine)
    ensures Next(Fetched(id, b.consumer, [a, b]), Finish(0, false)) == OneLeft(id, a, b)
  {
    var s := Fetched(id, b.consumer, [a, b]);
    FinishFront(s, false);
    assert Find(s.stream.pending, 0) == 0;
    assert RemoveAt(s.stream.pending, 0) == [] && RemoveAt(s.held, 0) == [Hold(b, 0)];
  }

  function Both(id: string, a: Goroutine, b: Goroutine): seq<Sleeper> {
    [Sleeper(a, Msg(id, 1, Processing)), Sleeper(b, Msg(id, 1, Processing))]
  }

  /** It fails as well: the message is on its way back to the stream twice. */
  lemma SecondFails(id: string, a: Goroutine, b: Goroutine)
    requires a != b
    ensures var s := Next(OneLeft(id, a, b), Finish(0, false));
            s.sleeping == Both(id, a, b) && |s.added| == 1 && |s.stale| == 1
  {
    var s := OneLeft(id, a, b);
    assert !Asleep(s, s.held[0].who);
    FinishFront(s, false);
    assert Outcome(Working(s, 0), false) == Msg(id, 1, Processing);
    assert !IsPending(s.stream.pending, 0);
  }

  /** Both goroutines fetch, and both fail. */
  function DoubleRun(id: string, a: Goroutine, b: Goroutine, idle: set<nat>): seq<Step> {
    [Publish(id), Fetch(a, {}), Fetch(b, idle), Finish(0, false), Finish(0, false)]
  }

  lemma AfterPrefix(steps: seq<Step>, n: nat)
    requires n < |steps|
    ensures After(steps[..n + 1]) == Next(After(steps[..n]), steps[n])
  {
    assert steps[..n + 1][..n] == steps[..n];
  }

  lemma FirstTwo(steps: seq<Step>, id: string, a: Goroutine)
    requires |steps| >= 2 && steps[0] == Publish(id) && steps[1] == Fetch(a, {})
    ensures After(steps[..2]) == Fetched(id, a.consumer, [a])
  {
    assert steps[..0] == [];
    AfterPrefix(steps, 0);
    AfterPrefix(steps, 1);
    FirstFetch(id, a);
  }

  lemma NextTwo(steps: seq<Step>, id: string, a: Goroutine, b: Goroutine)
    requires |steps| >= 4 && steps[3] == Finish(0, false)
    requires After(steps[..2]) == Fetched(id, a.consumer, [a])
    requires Next(Fetched(id, a.consumer, [a]), steps[2]) == Fetched(id, b.consumer, [a, b])
    ensures After(steps[..4]) == OneLeft(id, a, b)
  {
    AfterPrefix(steps, 2);
    AfterPrefix(steps, 3);
    FirstFails(id, a, b);
  }

  lemma LastOne(steps: seq<Step>, id: string, a: Goroutine, b: Goroutine)
    requires a != b && |steps| == 5 && steps[4] == Finish(0, false) && After(steps[..4]) == OneLeft(id, a, b)
    ensures var s := After(steps); |s.added| == 1 && |s.stale| == 1 && s.sleeping == Both(id, a, b)
  {
    AfterPrefix(steps, 4);
    assert steps[..5] == steps;
    SecondFails(id, a, b);
  }

  lemma DoubleRunStates(id: string, a: Goroutine, b: Goroutine, idle: set<nat>)
    requires a != b
    requires Next(Fetched(id, a.consumer, [a]), Fetch(b, idle)) == Fetched(id, b.consumer, [a, b])
    ensures var s := After(DoubleRun(id, a, b, idle));
            |s.added| == 1 && |s.stale| == 1 && s.sleeping == Both(id, a, b)
  {
    var steps := DoubleRun(id, a, b, idle);
    FirstTwo(steps, id, a);
    NextTwo(steps, id, a, b);
    LastOne(steps, id, a, b);
  }

  /** Two goroutines that share a name can turn one message into two. */
  lemma SharedNameDuplicates(id: string, name: string)
    ensures var a, b := Goroutine(name, 0), Goroutine(name, 1);
            var s := After(DoubleRun(id, a, b, {}));
            |s.added| == 1 && |s.stale| == 1 && s.sleeping == Both(id, a, b)
  {
    SameNameFetch(id, Goroutine(name, 0), Goroutine(name, 1));
    DoubleRunStates(id, Goroutine(name, 0), Goroutine(name, 1), {});
  }

  /** With one goroutine for each name, so can a claim of what another worker is still working on. */
  lemma ClaimDuplicates(id: string, name: string, other: string)
    requires name != other
    ensures var a, b := Goroutine(name, 0), Goroutine(other, 0);
            var s := After(DoubleRun(id, a, b, {0}));
            |s.added| == 1 && |s.stale| == 1 && s.sleeping == Both(id, a, b)
  {
    ClaimingFetch(id, Goroutine(name, 0), Goroutine(other, 0));
    DoubleRunStates(id, Goroutine(name, 0), Goroutine(other, 0), {0});
  }
}
