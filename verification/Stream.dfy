/** The indexer's message stream: one consumer group, entries that stay pending until they are acknowledged. */
module Streams {
  import opened Lists

  const MAX_RETRIES := 5
  const BATCH := 10

  datatype Status = Ready | Processing | Done | Dead

  datatype Msg = Msg(id: string, retryCount: nat, status: Status)

  /** An entry that was delivered to a consumer and not acknowledged; sid is its place in the stream. */
  datatype Owned = Owned(sid: nat, consumer: string)

  /** Entries are never removed; those from delivered on have not been handed to the group yet. */
  datatype Stream = Stream(entries: seq<Msg>, delivered: nat, pending: seq<Owned>) {
    predicate Valid() {
      && delivered <= |entries|
      && (forall i :: 0 <= i < |pending| ==> pending[i].sid < delivered)
      && (forall i, j :: 0 <= i < j < |pending| ==> pending[i].sid < pending[j].sid)
    }
  }

  // ----- what the commands and methods do -----

  function NewMsg(id: string): Msg {
    Msg(id, 0, Ready)
  }

  function AddSpec(s: Stream, msg: Msg): (r: Stream)
    ensures s.Valid() ==> r.Valid()
  {
    s.(entries := s.entries + [msg])
  }

  function Range(from: nat, to: nat): (sids: seq<nat>)
    requires from <= to
    ensures |sids| == to - from && forall i :: 0 <= i < |sids| ==> sids[i] == from + i
  {
    seq(to - from, i requires 0 <= i < to - from => from + i)
  }

  function Owning(sids: seq<nat>, consumer: string): (r: seq<Owned>)
    ensures |r| == |sids| && forall i :: 0 <= i < |r| ==> r[i] == Owned(sids[i], consumer)
  {
    seq(|sids|, i requires 0 <= i < |sids| => Owned(sids[i], consumer))
  }

  /** Reading new entries: the next ones become pending for the consumer. */
  function ReadNew(s: Stream, consumer: string): (r: (Stream, seq<nat>))
    requires s.Valid()
    ensures r.0.Valid()
  {
    var to := if |s.entries| < s.delivered + BATCH then |s.entries| else s.delivered + BATCH;
    var sids := Range(s.delivered, to);
    (Stream(s.entries, to, s.pending + Owning(sids, consumer)), sids)
  }

  /** Reading from the beginning: the consumer's own pending entries, the oldest first. */
  function ReadOwn(pending: seq<Owned>, consumer: string, limit: nat): seq<nat> {
    if pending == [] || limit == 0 then []
    else if pending[0].consumer == consumer then [pending[0].sid] + ReadOwn(pending[1..], consumer, limit - 1)
    else ReadOwn(pending[1..], consumer, limit)
  }

  /** The idle entries a claim takes over, the oldest first. */
  function ClaimSids(pending: seq<Owned>, idle: set<nat>, limit: nat): seq<nat> {
    if pending == [] || limit == 0 then []
    else if pending[0].sid in idle then [pending[0].sid] + ClaimSids(pending[1..], idle, limit - 1)
    else ClaimSids(pending[1..], idle, limit)
  }

  function Claim(pending: seq<Owned>, sids: seq<nat>, consumer: string): (r: seq<Owned>)
    ensures |r| == |pending|
    ensures forall i :: 0 <= i < |r| ==>
              r[i] == if pending[i].sid in sids then Owned(pending[i].sid, consumer) else pending[i]
  {
    seq(|pending|, i requires 0 <= i < |pending| =>
      if pending[i].sid in sids then Owned(pending[i].sid, consumer) else pending[i])
  }

  /** New entries if there are any, else the consumer's own, else idle ones of anybody. */
  function GetSpec(s: Stream, consumer: string, idle: set<nat>): (r: (Stream, seq<nat>))
    requires s.Valid()
    ensures r.0.Valid() && r.0.entries == s.entries
  {
    if s.delivered < |s.entries| then ReadNew(s, consumer)
    else
      var own := ReadOwn(s.pending, consumer, BATCH);
      if own != [] then (s, own)
      else
        var sids := ClaimSids(s.pending, idle, BATCH);
        (s.(pending := Claim(s.pending, sids, consumer)), sids)
  }

  /** The place of an entry in the pending list, or the end of the list. */
  function Find(pending: seq<Owned>, sid: nat): (i: nat)
    ensures i <= |pending|
    ensures forall j :: 0 <= j < i ==> pending[j].sid != sid
    ensures i < |pending| ==> pending[i].sid == sid
  {
    if pending == [] || pending[0].sid == sid then 0 else 1 + Find(pending[1..], sid)
  }

  predicate IsPending(pending: seq<Owned>, sid: nat) {
    Find(pending, sid) < |pending|
  }

  /** XACK: nothing happens when the entry is not pending any more. */
  function Ack(pending: seq<Owned>, sid: nat): seq<Owned> {
    var i := Find(pending, sid);
    if i < |pending| then RemoveAt(pending, i) else pending
  }

  function AckSpec(s: Stream, sid: nat): (r: Stream)
    requires s.Valid()
    ensures r.Valid()
  {
    s.(pending := Ack(s.pending, sid))
  }

  function Retried(msg: Msg): Msg {
    msg.(retryCount := msg.retryCount + 1)
  }

  function CompleteSpec(s: Stream, sid: nat, msg: Msg, success: bool): Stream
    requires s.Valid()
  {
    var acked := AckSpec(s, sid);
    if !success && Retried(msg).retryCount <= MAX_RETRIES then AddSpec(acked, Retried(msg)) else acked
  }

  /** What becomes of a message that is completed. */
  function Outcome(msg: Msg, success: bool): Msg {
    if success then msg.(status := Done)
    else if Retried(msg).retryCount <= MAX_RETRIES then Retried(msg)
    else Retried(msg).(status := Dead)
  }

  lemma {:induction false} ReadOwnPending(pending: seq<Owned>, consumer: string, limit: nat)
    ensures forall k :: k in ReadOwn(pending, consumer, limit) ==> Owned(k, consumer) in pending
  {
    if pending != [] && limit > 0 {
      var rest := pending[1..];
      assert forall o :: o in rest ==> o in pending;
      assert pending[0] in pending;
      if pending[0].consumer == consumer {
        ReadOwnPending(rest, consumer, limit - 1);
      } else {
        ReadOwnPending(rest, consumer, limit);
      }
    }
  }

  lemma {:induction false} ClaimPending(pending: seq<Owned>, idle: set<nat>, limit: nat)
    ensures forall k :: k in ClaimSids(pending, idle, limit) ==> k in idle && exists o :: o in pending && o.sid == k
  {
    if pending != [] && limit > 0 {
      var rest := pending[1..];
      assert forall o :: o in rest ==> o in pending;
      assert pending[0] in pending;
      if pending[0].sid in idle {
        ClaimPending(rest, idle, limit - 1);
      } else {
        ClaimPending(rest, idle, limit);
      }
    }
  }

  /** What a read returns is pending for the reader from then on. */
  lemma FetchedIsPending(s: Stream, consumer: string, idle: set<nat>)
    requires s.Valid()
    ensures var (t, sids) := GetSpec(s, consumer, idle);
            forall k :: k in sids ==> Owned(k, consumer) in t.pending
  {
    var (t, sids) := GetSpec(s, consumer, idle);
    if s.delivered < |s.entries| {
      forall i | 0 <= i < |sids|
        ensures Owned(sids[i], consumer) in t.pending
      {
        assert t.pending[|s.pending| + i] == Owned(sids[i], consumer);
      }
    } else if ReadOwn(s.pending, consumer, BATCH) != [] {
      ReadOwnPending(s.pending, consumer, BATCH);
    } else {
      ClaimPending(s.pending, idle, BATCH);
      forall k | k in sids
        ensures Owned(k, consumer) in t.pending
      {
        var o :| o in s.pending && o.sid == k;
        var i :| 0 <= i < |s.pending| && s.pending[i] == o;
        assert t.pending[i] == Owned(k, consumer);
      }
    }
  }

  lemma GetInRange(s: Stream, consumer: string, idle: set<nat>)
    requires s.Valid()
    ensures var sids := GetSpec(s, consumer, idle).1;
            forall i :: 0 <= i < |sids| ==> sids[i] < |s.entries|
  {
    var (t, sids) := GetSpec(s, consumer, idle);
    FetchedIsPending(s, consumer, idle);
    forall i | 0 <= i < |sids|
      ensures sids[i] < t.delivered
    {
      assert sids[i] in sids;
    }
  }

  // ----- the same in plain numbers -----

  predicate Increasing(sids: seq<nat>) {
    forall i, j :: 0 <= i < j < |sids| ==> sids[i] < sids[j]
  }

  predicate Sorted(pending: seq<Owned>) {
    forall i, j :: 0 <= i < j < |pending| ==> pending[i].sid < pending[j].sid
  }

  lemma ConsIncreasing(k: nat, sids: seq<nat>)
    requires Increasing(sids) && forall x :: x in sids ==> k < x
    ensures Increasing([k] + sids)
  {
    assert forall i :: 0 <= i < |sids| ==> sids[i] in sids;
  }

  lemma SortedRest(pending: seq<Owned>)
    requires pending != [] && Sorted(pending)
    ensures Sorted(pending[1..]) && forall o :: o in pending[1..] ==> pending[0].sid < o.sid
  {
  }

  lemma {:induction false} ReadOwnSorted(pending: seq<Owned>, consumer: string, limit: nat)
    requires Sorted(pending)
    ensures Increasing(ReadOwn(pending, consumer, limit))
  {
    if pending != [] && limit > 0 {
      var rest := pending[1..];
      SortedRest(pending);
      if pending[0].consumer == consumer {
        ReadOwnSorted(rest, consumer, limit - 1);
        ReadOwnPending(rest, consumer, limit - 1);
        ConsIncreasing(pending[0].sid, ReadOwn(rest, consumer, limit - 1));
      } else {
        ReadOwnSorted(rest, consumer, limit);
      }
    }
  }

  lemma {:induction false} ClaimSorted(pending: seq<Owned>, idle: set<nat>, limit: nat)
    requires Sorted(pending)
    ensures Increasing(ClaimSids(pending, idle, limit))
  {
    if pending != [] && limit > 0 {
      var rest := pending[1..];
      SortedRest(pending);
      if pending[0].sid in idle {
        ClaimSorted(rest, idle, limit - 1);
        ClaimPending(rest, idle, limit - 1);
        ConsIncreasing(pending[0].sid, ClaimSids(rest, idle, limit - 1));
      } else {
        ClaimSorted(rest, idle, limit);
      }
    }
  }

  ghost predicate AllWanted(sids: seq<nat>, pending: seq<Owned>, wanted: Owned -> bool) {
    forall k :: k in sids ==> exists o :: o in pending && o.sid == k && wanted(o)
  }

  ghost predicate LeftOutIsLater(sids: seq<nat>, pending: seq<Owned>, wanted: Owned -> bool, limit: nat) {
    && (forall o :: o in pending && wanted(o) && o.sid !in sids ==> |sids| == limit)
    && (forall o, k :: o in pending && wanted(o) && o.sid !in sids && k in sids ==> k < o.sid)
  }

  /** sids are the oldest of the wanted entries: all of them, or as many as the limit allows. */
  ghost predicate Oldest(sids: seq<nat>, pending: seq<Owned>, wanted: Owned -> bool, limit: nat) {
    && Increasing(sids) && |sids| <= limit
    && AllWanted(sids, pending, wanted) && LeftOutIsLater(sids, pending, wanted, limit)
  }

  lemma MoreWanted(first: Owned, sids: seq<nat>, rest: seq<Owned>, wanted: Owned -> bool)
    requires wanted(first) && AllWanted(sids, rest, wanted)
    ensures AllWanted([first.sid] + sids, [first] + rest, wanted)
  {
    forall k | k in [first.sid] + sids
      ensures exists o :: o in [first] + rest && o.sid == k && wanted(o)
    {
      if k in sids {
        var o :| o in rest && o.sid == k && wanted(o);
        assert o in [first] + rest;
      } else {
        assert first in [first] + rest;
      }
    }
  }

  lemma MoreLeftOut(first: Owned, sids: seq<nat>, rest: seq<Owned>, wanted: Owned -> bool, limit: nat)
    requires limit > 0 && LeftOutIsLater(sids, rest, wanted, limit - 1) && forall o :: o in rest ==> first.sid < o.sid
    ensures LeftOutIsLater([first.sid] + sids, [first] + rest, wanted, limit)
  {
    forall o | o in [first] + rest && wanted(o) && o.sid !in [first.sid] + sids
      ensures o in rest && o.sid !in sids
    {
    }
  }

  lemma OldestTaken(pending: seq<Owned>, sids: seq<nat>, wanted: Owned -> bool, limit: nat)
    requires pending != [] && Sorted(pending) && wanted(pending[0]) && limit > 0
    requires Oldest(sids, pending[1..], wanted, limit - 1)
    ensures Oldest([pending[0].sid] + sids, pending, wanted, limit)
  {
    var first, rest := pending[0], pending[1..];
    SortedRest(pending);
    assert pending == [first] + rest;
    MoreWanted(first, sids, rest, wanted);
    MoreLeftOut(first, sids, rest, wanted, limit);
    ConsIncreasing(first.sid, sids);
  }

  lemma OldestSkipped(pending: seq<Owned>, sids: seq<nat>, wanted: Owned -> bool, limit: nat)
    requires pending != [] && !wanted(pending[0])
    requires Oldest(sids, pending[1..], wanted, limit)
    ensures Oldest(sids, pending, wanted, limit)
  {
    assert pending == [pending[0]] + pending[1..];
  }

  lemma {:induction false} ReadOwnOldest(pending: seq<Owned>, consumer: string, limit: nat)
    requires Sorted(pending)
    ensures Oldest(ReadOwn(pending, consumer, limit), pending, (o: Owned) => o.consumer == consumer, limit)
  {
    if pending != [] && limit > 0 {
      var rest := pending[1..];
      if pending[0].consumer == consumer {
        ReadOwnOldest(rest, consumer, limit - 1);
        OldestTaken(pending, ReadOwn(rest, consumer, limit - 1), (o: Owned) => o.consumer == consumer, limit);
      } else {
        ReadOwnOldest(rest, consumer, limit);
        OldestSkipped(pending, ReadOwn(rest, consumer, limit), (o: Owned) => o.consumer == consumer, limit);
      }
    }
  }

  lemma {:induction false} ClaimOldest(pending: seq<Owned>, idle: set<nat>, limit: nat)
    requires Sorted(pending)
    ensures Oldest(ClaimSids(pending, idle, limit), pending, (o: Owned) => o.sid in idle, limit)
  {
    if pending != [] && limit > 0 {
      var rest := pending[1..];
      if pending[0].sid in idle {
        ClaimOldest(rest, idle, limit - 1);
        OldestTaken(pending, ClaimSids(rest, idle, limit - 1), (o: Owned) => o.sid in idle, limit);
      } else {
        ClaimOldest(rest, idle, limit);
        OldestSkipped(pending, ClaimSids(rest, idle, limit), (o: Owned) => o.sid in idle, limit);
      }
    }
  }

  /** The next ten entries, or all that are left, are handed out and become pending for the consumer. */
  predicate NextTen(was: Stream, consumer: string, now: Stream, sids: seq<nat>) {
    && now.entries == was.entries
    && now.delivered == was.delivered + |sids|
    && (|sids| == 10 || (|sids| < 10 && now.delivered == |was.entries|))
    && (forall i :: 0 <= i < |sids| ==> sids[i] == was.delivered + i)
    && |now.pending| == |was.pending| + |sids|
    && now.pending[..|was.pending|] == was.pending
    && (forall i :: 0 <= i < |sids| ==> now.pending[|was.pending| + i] == Owned(sids[i], consumer))
  }

  predicate HasOwn(pending: seq<Owned>, consumer: string) {
    exists i :: 0 <= i < |pending| && pending[i].consumer == consumer
  }

  /** New entries first, then the oldest ten of the consumer's own, then the oldest ten idle ones. */
  ghost predicate HandedOut(was: Stream, consumer: string, idle: set<nat>, now: Stream, sids: seq<nat>) {
    if was.delivered < |was.entries| then NextTen(was, consumer, now, sids)
    else if HasOwn(was.pending, consumer) then
      now == was && Oldest(sids, was.pending, (o: Owned) => o.consumer == consumer, 10)
    else
      && Oldest(sids, was.pending, (o: Owned) => o.sid in idle, 10)
      && now.entries == was.entries && now.delivered == was.delivered && |now.pending| == |was.pending|
      && forall i :: 0 <= i < |was.pending| ==>
           && now.pending[i].sid == was.pending[i].sid
           && now.pending[i].consumer == if was.pending[i].sid in sids then consumer else was.pending[i].consumer
  }

  lemma NewInNumbers(s: Stream, consumer: string)
    requires s.Valid() && s.delivered < |s.entries|
    ensures NextTen(s, consumer, ReadNew(s, consumer).0, ReadNew(s, consumer).1)
  {
  }

  lemma {:induction false} OwnFound(pending: seq<Owned>, consumer: string, limit: nat)
    requires limit > 0
    ensures HasOwn(pending, consumer) <==> ReadOwn(pending, consumer, limit) != []
  {
    if pending != [] && pending[0].consumer != consumer {
      OwnFound(pending[1..], consumer, limit);
      assert forall i :: 0 < i < |pending| ==> pending[i] == pending[1..][i - 1];
    }
  }

  lemma ReadInNumbers(s: Stream, consumer: string, idle: set<nat>)
    requires s.Valid()
    ensures HandedOut(s, consumer, idle, GetSpec(s, consumer, idle).0, GetSpec(s, consumer, idle).1)
  {
    if s.delivered < |s.entries| {
      NewInNumbers(s, consumer);
    } else {
      OwnFound(s.pending, consumer, 10);
      ReadOwnOldest(s.pending, consumer, 10);
      ClaimOldest(s.pending, idle, 10);
    }
  }

  lemma AckKeepsOthers(pending: seq<Owned>, sid: nat, o: Owned)
    requires o in pending && o.sid != sid
    ensures o in Ack(pending, sid)
  {
    var at := Find(pending, sid);
    var k :| 0 <= k < |pending| && pending[k] == o;
    if k < at < |pending| {
      assert RemoveAt(pending, at)[k] == o;
    } else if at < k {
      assert RemoveAt(pending, at)[k - 1] == o;
    }
  }

  lemma AckRemoves(pending: seq<Owned>, sid: nat)
    requires Sorted(pending)
    ensures forall o :: o in Ack(pending, sid) <==> o in pending && o.sid != sid
  {
    var at := Find(pending, sid);
    var left := Ack(pending, sid);
    forall i | 0 <= i < |left|
      ensures left[i] in pending && left[i].sid != sid
    {
      assert left[i] == pending[if i < at then i else i + 1];
    }
    forall o | o in pending && o.sid != sid
      ensures o in left
    {
      AckKeepsOthers(pending, sid, o);
    }
  }

  /** The message is acknowledged; a failed one with fewer than five failures before is added again. */
  ghost predicate Completed(was: Stream, sid: nat, msg: Msg, success: bool, now: Stream, completed: Msg) {
    && now.delivered == was.delivered
    && Sorted(now.pending) && (forall o :: o in now.pending <==> o in was.pending && o.sid != sid)
    && completed.id == msg.id
    && now.entries == was.entries + (if !success && msg.retryCount < 5 then [completed] else [])
    && completed.retryCount == (if success then msg.retryCount else msg.retryCount + 1)
    && completed.status == (if success then Done else if msg.retryCount < 5 then msg.status else Dead)
  }

  lemma CompletionInNumbers(s: Stream, sid: nat, msg: Msg, success: bool)
    requires s.Valid()
    ensures Completed(s, sid, msg, success, CompleteSpec(s, sid, msg, success), Outcome(msg, success))
  {
    AckRemoves(s.pending, sid);
    assert AckSpec(s, sid).Valid();
  }

  // ----- the same as methods -----

  class MsgStream {
    var entries: seq<Msg>
    var delivered: nat
    var pending: seq<Owned>

    function Model(): Stream
      reads this
    {
      Stream(entries, delivered, pending)
    }

    constructor ()
      ensures Model() == Stream([], 0, []) && Model().Valid()
    {
      entries, delivered, pending := [], 0, [];
    }

    method AddMsg(msg: Msg)
      modifies this`entries
      ensures Model() == AddSpec(old(Model()), msg)
    {
      entries := entries + [msg];
    }

    /** XREADGROUP with ">". */
    method TakeNew(consumer: string) returns (result: seq<nat>)
      requires Model().Valid()
      modifies this`delivered, this`pending
      ensures (Model(), result) == ReadNew(old(Model()), consumer)
      ensures result == [] <==> old(delivered) == |entries|
    {
      result := [];
      while delivered < |entries| && |result| < BATCH
        invariant old(delivered) <= delivered <= |entries|
        invariant |result| == delivered - old(delivered) <= BATCH
        invariant result == Range(old(delivered), delivered)
        invariant pending == old(pending) + Owning(result, consumer)
      {
        pending := pending + [Owned(delivered, consumer)];
        result := result + [delivered];
        delivered := delivered + 1;
      }
    }

    /** XREADGROUP with "0". */
    method ListOwn(consumer: string) returns (result: seq<nat>)
      ensures result == ReadOwn(pending, consumer, BATCH)
    {
      result := [];
      var i := 0;
      while i < |pending| && |result| < BATCH
        invariant 0 <= i <= |pending| && |result| <= BATCH
        invariant result + ReadOwn(pending[i..], consumer, BATCH - |result|) == ReadOwn(pending, consumer, BATCH)
      {
        assert pending[i..][1..] == pending[i + 1..];
        if pending[i].consumer == consumer {
          result := result + [pending[i].sid];
        }
        i := i + 1;
      }
    }

    /** XAUTOCLAIM; idle are the entries that have been pending for a minute. */
    method ClaimIdle(consumer: string, idle: set<nat>) returns (result: seq<nat>)
      modifies this`pending
      ensures result == ClaimSids(old(pending), idle, BATCH) && pending == Claim(old(pending), result, consumer)
    {
      result := [];
      var i := 0;
      while i < |pending| && |result| < BATCH
        invariant 0 <= i <= |pending| && |result| <= BATCH && pending == old(pending)
        invariant result + ClaimSids(pending[i..], idle, BATCH - |result|) == ClaimSids(pending, idle, BATCH)
      {
        assert pending[i..][1..] == pending[i + 1..];
        if pending[i].sid in idle {
          result := result + [pending[i].sid];
        }
        i := i + 1;
      }
      pending := Claim(pending, result, consumer);
    }

    /** New entries if there are any, else the consumer's own pending ones, else idle ones of anybody. */
    method GetMsg(consumer: string, idle: set<nat>) returns (result: seq<nat>)
      requires Model().Valid()
      modifies this
      ensures (Model(), result) == GetSpec(old(Model()), consumer, idle) && Model().Valid()
      ensures HandedOut(old(Model()), consumer, idle, Model(), result)
    {
      ReadInNumbers(Model(), consumer, idle);
      result := TakeNew(consumer);
      if result == [] {
        assert pending == old(pending);
        result := ListOwn(consumer);
      }
      if result == [] {
        result := ClaimIdle(consumer, idle);
      }
    }

    method CompleteMessage(sid: nat, msg: Msg, success: bool) returns (completed: Msg)
      requires Model().Valid()
      modifies this
      ensures Model() == CompleteSpec(old(Model()), sid, msg, success) && Model().Valid()
      ensures completed == Outcome(msg, success)
      ensures Completed(old(Model()), sid, msg, success, Model(), completed)
    {
      CompletionInNumbers(Model(), sid, msg, success);
      completed := msg;
      pending := Ack(pending, sid);
      if !success {
        completed := completed.(retryCount := completed.retryCount + 1);
        if completed.retryCount <= MAX_RETRIES {
          entries := entries + [completed];
          return;
        }
        completed := completed.(status := Dead);
        return;
      }
      completed := completed.(status := Done);
    }
  }

  /** A batch worked off in order; a message that fails goes back before the next one is tried. */
  function WorkedOff(s: Stream, sids: seq<nat>, exec: Msg -> bool): (r: Stream)
    requires s.Valid() && forall i :: 0 <= i < |sids| ==> sids[i] < |s.entries|
    ensures r.Valid() && |s.entries| <= |r.entries|
  {
    if sids == [] then s
    else
      var before := WorkedOff(s, sids[..|sids| - 1], exec);
      var sid := sids[|sids| - 1];
      var msg := before.entries[sid].(status := Processing);
      CompleteSpec(before, sid, msg, exec(msg))
  }

  /** The messages a batch was fetched with are the ones that are worked off: completing never rewrites an entry. */
  lemma {:induction false} EntriesStay(s: Stream, sids: seq<nat>, exec: Msg -> bool)
    requires s.Valid() && forall i :: 0 <= i < |sids| ==> sids[i] < |s.entries|
    ensures s.entries <= WorkedOff(s, sids, exec).entries
  {
    if sids == [] {
    } else {
      EntriesStay(s, sids[..|sids| - 1], exec);
    }
  }

  lemma OneMoreDone(s: Stream, sids: seq<nat>, exec: Msg -> bool, i: nat, msg: Msg)
    requires s.Valid() && (forall k :: 0 <= k < |sids| ==> sids[k] < |s.entries|) && i < |sids|
    requires msg == s.entries[sids[i]].(status := Processing)
    ensures WorkedOff(s, sids[..i + 1], exec) == CompleteSpec(WorkedOff(s, sids[..i], exec), sids[i], msg, exec(msg))
  {
    EntriesStay(s, sids[..i], exec);
    assert sids[..i + 1][..i] == sids[..i];
  }

  /** The message goes back to the stream: it fails, and has failed fewer than five times before. */
  predicate GoesBack(msg: Msg, exec: Msg -> bool) {
    msg.retryCount < 5 && !exec(Msg(msg.id, msg.retryCount, Processing))
  }

  ghost function GoingBack(s: Stream, sids: seq<nat>, exec: Msg -> bool): set<nat>
    requires forall i :: 0 <= i < |sids| ==> sids[i] < |s.entries|
  {
    set i: nat | i < |sids| && GoesBack(s.entries[sids[i]], exec)
  }

  lemma OneMoreBack(s: Stream, sids: seq<nat>, exec: Msg -> bool)
    requires sids != [] && forall i :: 0 <= i < |sids| ==> sids[i] < |s.entries|
    ensures var n := |sids| - 1;
            |GoingBack(s, sids, exec)| == |GoingBack(s, sids[..n], exec)|
              + if GoesBack(s.entries[sids[n]], exec) then 1 else 0
  {
    var n := |sids| - 1;
    var before := GoingBack(s, sids[..n], exec);
    assert GoingBack(s, sids, exec) == if GoesBack(s.entries[sids[n]], exec) then before + {n} else before;
  }

  /** A batch leaves the pending list; what goes back is added behind all there was, once, with its count raised. */
  ghost predicate RoundDone(s: Stream, sids: seq<nat>, exec: Msg -> bool, t: Stream)
    requires forall i :: 0 <= i < |sids| ==> sids[i] < |s.entries|
  {
    && t.delivered == s.delivered && s.entries <= t.entries
    && (forall o :: o in t.pending <==> o in s.pending && o.sid !in sids)
    && |t.entries| == |s.entries| + |GoingBack(s, sids, exec)|
    && forall i :: 0 <= i < |sids| && GoesBack(s.entries[sids[i]], exec) ==>
         Msg(s.entries[sids[i]].id, s.entries[sids[i]].retryCount + 1, Processing) in t.entries[|s.entries|..]
  }

  lemma OneMoreInRound(s: Stream, sids: seq<nat>, exec: Msg -> bool, before: Stream, t: Stream, completed: Msg)
    requires sids != [] && forall i :: 0 <= i < |sids| ==> sids[i] < |s.entries|
    requires RoundDone(s, sids[..|sids| - 1], exec, before)
    requires var msg := s.entries[sids[|sids| - 1]].(status := Processing);
             Completed(before, sids[|sids| - 1], msg, exec(msg), t, completed)
    ensures RoundDone(s, sids, exec, t)
  {
    var n, m := |sids| - 1, |s.entries|;
    var added := if GoesBack(s.entries[sids[n]], exec) then [completed] else [];
    OneMoreBack(s, sids, exec);
    assert sids == sids[..n] + [sids[n]];
    assert t.entries == before.entries + added;
    assert t.entries[m..] == before.entries[m..] + added;
    forall i | 0 <= i < |sids| && GoesBack(s.entries[sids[i]], exec)
      ensures Msg(s.entries[sids[i]].id, s.entries[sids[i]].retryCount + 1, Processing) in t.entries[m..]
    {
      if i < n { assert sids[..n][i] == sids[i]; }
    }
  }

  lemma {:induction false} RoundInNumbers(s: Stream, sids: seq<nat>, exec: Msg -> bool)
    requires s.Valid() && forall i :: 0 <= i < |sids| ==> sids[i] < |s.entries|
    ensures RoundDone(s, sids, exec, WorkedOff(s, sids, exec))
  {
    if sids == [] {
    } else {
      var n := |sids| - 1;
      var before, msg := WorkedOff(s, sids[..n], exec), s.entries[sids[n]].(status := Processing);
      RoundInNumbers(s, sids[..n], exec);
      CompletionInNumbers(before, sids[n], msg, exec(msg));
      OneMoreInRound(s, sids, exec, before, WorkedOff(s, sids, exec), Outcome(msg, exec(msg)));
    }
  }

  /** The fetched entries with their messages, as GetMsg decodes them. */
  method Decode(stream: MsgStream, sids: seq<nat>) returns (messages: seq<Msg>)
    requires forall i :: 0 <= i < |sids| ==> sids[i] < |stream.entries|
    ensures |messages| == |sids| && forall i :: 0 <= i < |sids| ==> messages[i] == stream.entries[sids[i]]
  {
    messages := [];
    for i := 0 to |sids|
      invariant |messages| == i
      invariant forall k :: 0 <= k < i ==> messages[k] == stream.entries[sids[k]]
    {
      messages := messages + [stream.entries[sids[i]]];
    }
  }

  /** The fetched messages are completed one by one. */
  method WorkOff(stream: MsgStream, sids: seq<nat>, messages: seq<Msg>, exec: Msg -> bool)
    requires stream.Model().Valid()
    requires forall i :: 0 <= i < |sids| ==> sids[i] < |stream.entries|
    requires |messages| == |sids| && forall i :: 0 <= i < |sids| ==> messages[i] == stream.entries[sids[i]]
    modifies stream
    ensures stream.Model() == WorkedOff(old(stream.Model()), sids, exec)
  {
    for i := 0 to |sids|
      invariant stream.Model().Valid() && stream.Model() == WorkedOff(old(stream.Model()), sids[..i], exec)
    {
      var message := messages[i].(status := Processing);
      OneMoreDone(old(stream.Model()), sids, exec, i, message);
      var completed := stream.CompleteMessage(sids[i], message, exec(message));
    }
    assert sids[..|sids|] == sids;
  }

  /** One round of the consumer loop. */
  method ProcessMessages(stream: MsgStream, consumer: string, idle: set<nat>, exec: Msg -> bool)
    requires stream.Model().Valid()
    modifies stream
    ensures var (fetched, sids) := GetSpec(old(stream.Model()), consumer, idle);
            && (forall i :: 0 <= i < |sids| ==> sids[i] < |fetched.entries|)
            && stream.Model() == WorkedOff(fetched, sids, exec)
            && RoundDone(fetched, sids, exec, stream.Model())
  {
    GetInRange(stream.Model(), consumer, idle);
    var sids := stream.GetMsg(consumer, idle);
    RoundInNumbers(stream.Model(), sids, exec);
    var messages := Decode(stream, sids);
    WorkOff(stream, sids, messages, exec);
  }
}
