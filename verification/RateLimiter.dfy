/**
 * The slot-reservation script: one key per domain holds the time of the next free slot. Times and
 * delays are in the one unit in which the script adds them.
 */
module RateLimiter {
  import opened Options
  import opened Jobs

  /** The slot a call at time now gets. */
  function Slot(stored: Option<int>, now: int): int {
    match stored
    case None => now
    case Some(next) => Max(next, now)
  }

  function Stored(keys: map<string, int>, key: string): Option<int> {
    if key in keys then Some(keys[key]) else None
  }

  class Limiter {
    var keys: map<string, int>

    constructor ()
      ensures keys == map[]
    {
      keys := map[];
    }

    /** The script, run atomically. It returns the wait, and moves the slot on even when that is not zero. */
    method Reserve(key: string, now: int, delay: int) returns (wait: int)
      modifies this
      ensures wait == Slot(Stored(old(keys), key), now) - now && wait >= 0
      ensures keys == old(keys)[key := now + wait + delay]
    {
      var nextAllowed := now;
      if key in keys {
        nextAllowed := keys[key];
      }
      if nextAllowed < now {
        nextAllowed := now;
      }
      wait := nextAllowed - now;
      var newNext := nextAllowed + delay;
      keys := keys[key := newNext];
    }
  }

  // ----- one domain -----

  datatype Call = Call(now: int, delay: int)

  /** What the key holds after some calls. */
  function SlotAfter(calls: seq<Call>): Option<int> {
    if calls == [] then None
    else Some(Slot(SlotAfter(calls[..|calls| - 1]), calls[|calls| - 1].now) + calls[|calls| - 1].delay)
  }

  /** The wait that call i is told. */
  function Wait(calls: seq<Call>, i: nat): int
    requires i < |calls|
  {
    Slot(SlotAfter(calls[..i]), calls[i].now) - calls[i].now
  }

  predicate Admitted(calls: seq<Call>, i: nat)
    requires i < |calls|
  {
    Wait(calls, i) == 0
  }

  /** The delays of calls i, i + 1, ... to the last. */
  function DelaysFrom(calls: seq<Call>, i: nat): int
    requires i <= |calls|
    decreases |calls| - i
  {
    if i == |calls| then 0 else calls[i].delay + DelaysFrom(calls, i + 1)
  }

  lemma {:induction false} DelaysAppend(calls: seq<Call>, c: Call, i: nat)
    requires i <= |calls|
    ensures DelaysFrom(calls + [c], i) == DelaysFrom(calls, i) + c.delay
    decreases |calls| - i
  {
    if i < |calls| { DelaysAppend(calls, c, i + 1); }
  }

  /** The stored slot is the maximum over all calls of the call's time plus all delays since. */
  ghost predicate IsLatest(calls: seq<Call>, slot: int) {
    && (forall i :: 0 <= i < |calls| ==> calls[i].now + DelaysFrom(calls, i) <= slot)
    && (exists i :: 0 <= i < |calls| && calls[i].now + DelaysFrom(calls, i) == slot)
  }

  lemma {:induction false} SlotIsLatest(calls: seq<Call>)
    requires calls != []
    ensures IsLatest(calls, SlotAfter(calls).value)
  {
    var n := |calls| - 1;
    var earlier, c := calls[..n], calls[n];
    assert calls == earlier + [c];
    forall i | 0 <= i < n
      ensures calls[i].now + DelaysFrom(calls, i) == earlier[i].now + DelaysFrom(earlier, i) + c.delay
    {
      DelaysAppend(earlier, c, i);
    }
    assert DelaysFrom(calls, n) == c.delay;
    if n > 0 {
      SlotIsLatest(earlier);
      var i :| 0 <= i < n && earlier[i].now + DelaysFrom(earlier, i) == SlotAfter(earlier).value;
      assert calls[i].now + DelaysFrom(calls, i) == SlotAfter(earlier).value + c.delay;
    }
  }

  /** The delays of calls i to j - 1. */
  function DelaysBetween(calls: seq<Call>, i: nat, j: nat): int
    requires i <= j <= |calls|
  {
    DelaysFrom(calls[..j], i)
  }

  /** A call is admitted exactly when every earlier call and all delays from it on are over. */
  lemma AdmittedIff(calls: seq<Call>, j: nat)
    requires j < |calls|
    ensures Admitted(calls, j) <==> forall i :: 0 <= i < j ==> calls[i].now + DelaysBetween(calls, i, j) <= calls[j].now
  {
    var earlier := calls[..j];
    if j > 0 {
      SlotIsLatest(earlier);
      forall i | 0 <= i < j
        ensures calls[i].now + DelaysBetween(calls, i, j) == earlier[i].now + DelaysFrom(earlier, i)
      {
      }
      var i :| 0 <= i < j && earlier[i].now + DelaysFrom(earlier, i) == SlotAfter(earlier).value;
      assert calls[i].now + DelaysBetween(calls, i, j) == SlotAfter(earlier).value;
    }
  }

  predicate DelaysAtLeast(calls: seq<Call>, delay: int) {
    forall i :: 0 <= i < |calls| ==> delay <= calls[i].delay
  }

  lemma {:induction false} DelaysGrow(calls: seq<Call>, i: nat)
    requires i < |calls| && DelaysAtLeast(calls, 0)
    ensures calls[i].delay <= DelaysFrom(calls, i)
    decreases |calls| - i
  {
    if i + 1 < |calls| { DelaysGrow(calls, i + 1); }
  }

  /** A later admission is at least the delay of any earlier call away, admitted or refused. */
  lemma AdmissionsSpaced(calls: seq<Call>, i: nat, j: nat)
    requires i < j < |calls| && DelaysAtLeast(calls, 0) && Admitted(calls, j)
    ensures calls[i].now + calls[i].delay <= calls[j].now
  {
    AdmittedIff(calls, j);
    DelaysGrow(calls[..j], i);
    assert calls[i].now + DelaysBetween(calls, i, j) <= calls[j].now;
  }

  /** How many calls are admitted at times from start up to, but not including, start + length. */
  function AdmittedWithin(calls: seq<Call>, start: int, length: int): nat {
    if calls == [] then 0
    else
      var n := |calls| - 1;
      var within := start <= calls[n].now < start + length && Admitted(calls, n);
      AdmittedWithin(calls[..n], start, length) + if within then 1 else 0
  }

  lemma {:induction false} SlotPastWindow(calls: seq<Call>, start: int, length: int, delay: int)
    requires delay > 0 && DelaysAtLeast(calls, delay)
    ensures var m := AdmittedWithin(calls, start, length);
            m > 0 ==> start + m * delay <= SlotAfter(calls).value && (m - 1) * delay < length
  {
    if calls == [] {
    } else {
      var n := |calls| - 1;
      SlotPastWindow(calls[..n], start, length, delay);
      var m := AdmittedWithin(calls[..n], start, length);
      assert (m + 1) * delay == m * delay + delay;
    }
  }

  /** In any window of a given length at most ceil(length / delay) calls for one domain are admitted. */
  lemma WindowBound(calls: seq<Call>, start: int, length: nat, delay: int)
    requires delay > 0 && DelaysAtLeast(calls, delay)
    ensures AdmittedWithin(calls, start, length) <= (length + delay - 1) / delay
  {
    SlotPastWindow(calls, start, length, delay);
    var m := AdmittedWithin(calls, start, length);
    if m > 0 { CeilingOf(m, length, delay); }
  }

  lemma Cancel(a: int, b: int, d: int)
    requires d > 0 && a * d < b * d
    ensures a < b
  {
  }

  lemma CeilingOf(m: nat, length: nat, delay: int)
    requires delay > 0 && (m - 1) * delay < length
    ensures m <= (length + delay - 1) / delay
  {
    var x := length + delay - 1;
    assert m * delay == (m - 1) * delay + delay;
    assert (x / delay + 1) * delay == (x / delay) * delay + delay;
    Cancel(m, x / delay + 1, delay);
  }

  // ----- returning after a refusal -----

  /**
   * A call that was refused moved the slot on by its own delay, so with no other calls in between,
   * the next one is admitted exactly when it comes the wait and the delay later.
   */
  lemma ReturnAfterRefusal(calls: seq<Call>, now: int, delay: int)
    requires calls != []
    ensures var n := |calls| - 1;
            Admitted(calls + [Call(now, delay)], n + 1) <==> now >= calls[n].now + Wait(calls, n) + calls[n].delay
  {
    var again := calls + [Call(now, delay)];
    assert again[..|calls|] == calls;
  }

  /** A job that always comes back exactly when its wait is over. */
  function Punctual(first: seq<Call>, delay: int, rounds: nat): seq<Call>
    requires first != []
    ensures |Punctual(first, delay, rounds)| == |first| + rounds
  {
    if rounds == 0 then first
    else
      var calls := Punctual(first, delay, rounds - 1);
      var n := |calls| - 1;
      calls + [Call(calls[n].now + Wait(calls, n), delay)]
  }

  /** It is refused every time, for ever. */
  lemma {:induction false} PunctualNeverAdmitted(first: seq<Call>, delay: int, rounds: nat)
    requires first != [] && delay > 0 && first[|first| - 1].delay > 0
    ensures var calls := Punctual(first, delay, rounds);
            rounds > 0 ==> !Admitted(calls, |calls| - 1)
  {
    if rounds > 0 {
      var calls := Punctual(first, delay, rounds - 1);
      var n := |calls| - 1;
      assert calls[n].delay > 0;
      ReturnAfterRefusal(calls, calls[n].now + Wait(calls, n), delay);
    }
  }

  // ----- many domains -----

  datatype Request = Request(key: string, call: Call)

  /** All keys after requests for any domains. */
  function KeysAfter(requests: seq<Request>): map<string, int> {
    if requests == [] then map[]
    else
      var before, r := KeysAfter(requests[..|requests| - 1]), requests[|requests| - 1];
      before[r.key := Slot(Stored(before, r.key), r.call.now) + r.call.delay]
  }

  /** The calls for one domain, in order. */
  function CallsFor(requests: seq<Request>, key: string): seq<Call> {
    if requests == [] then []
    else
      var r := requests[|requests| - 1];
      CallsFor(requests[..|requests| - 1], key) + if r.key == key then [r.call] else []
  }

  lemma SlotAppend(calls: seq<Call>, c: Call)
    ensures SlotAfter(calls + [c]) == Some(Slot(SlotAfter(calls), c.now) + c.delay)
  {
    assert (calls + [c])[..|calls|] == calls;
  }

  lemma KeyAfterOne(earlier: seq<Request>, r: Request, key: string)
    ensures Stored(KeysAfter(earlier + [r]), key) ==
            if r.key == key then Some(Slot(Stored(KeysAfter(earlier), key), r.call.now) + r.call.delay)
            else Stored(KeysAfter(earlier), key)
  {
    assert (earlier + [r])[..|earlier|] == earlier;
  }

  lemma CallsForOne(earlier: seq<Request>, r: Request, key: string)
    ensures CallsFor(earlier + [r], key)
         == if r.key == key then CallsFor(earlier, key) + [r.call] else CallsFor(earlier, key)
  {
    assert (earlier + [r])[..|earlier|] == earlier;
  }

  /** Domains do not interfere: each key is what its own calls alone make it. */
  lemma {:induction false} DomainsIndependent(requests: seq<Request>, key: string)
    ensures Stored(KeysAfter(requests), key) == SlotAfter(CallsFor(requests, key))
  {
    if requests == [] {
    } else {
      var earlier, r := requests[..|requests| - 1], requests[|requests| - 1];
      assert requests == earlier + [r];
      DomainsIndependent(earlier, key);
      KeyAfterOne(earlier, r, key);
      CallsForOne(earlier, r, key);
      if r.key == key { SlotAppend(CallsFor(earlier, key), r.call); }
    }
  }

  /** What the callers are told. */
  function WaitsOf(requests: seq<Request>): (waits: seq<int>)
    ensures |waits| == |requests|
  {
    if requests == [] then []
    else
      var before, r := requests[..|requests| - 1], requests[|requests| - 1];
      WaitsOf(before) + [Slot(Stored(KeysAfter(before), r.key), r.call.now) - r.call.now]
  }

  lemma {:induction false} WaitsPrefix(requests: seq<Request>, i: nat)
    requires i < |requests|
    ensures WaitsOf(requests)[i] == WaitsOf(requests[..i + 1])[i]
  {
    var n := |requests| - 1;
    if i < n {
      WaitsPrefix(requests[..n], i);
      assert requests[..n][..i + 1] == requests[..i + 1];
    } else {
      assert requests[..i + 1] == requests;
    }
  }

  /** Every caller waits exactly as if only its own domain had been called. */
  lemma WaitsAreOwn(requests: seq<Request>, i: nat)
    requires i < |requests|
    ensures var own := CallsFor(requests[..i + 1], requests[i].key);
            own != [] && WaitsOf(requests)[i] == Wait(own, |own| - 1)
  {
    WaitsPrefix(requests, i);
    var upTo := requests[..i + 1];
    assert upTo[..i] == requests[..i];
    DomainsIndependent(upTo[..i], requests[i].key);
    var own := CallsFor(upTo, requests[i].key);
    assert own == CallsFor(upTo[..i], requests[i].key) + [requests[i].call];
    assert own[..|own| - 1] == CallsFor(upTo[..i], requests[i].key);
  }

  /** The script, called for a whole list of requests. */
  method Serve(requests: seq<Request>) returns (limiter: Limiter, waits: seq<int>)
    ensures fresh(limiter) && limiter.keys == KeysAfter(requests) && waits == WaitsOf(requests)
  {
    limiter := new Limiter();
    waits := [];
    for i := 0 to |requests|
      invariant fresh(limiter) && limiter.keys == KeysAfter(requests[..i]) && waits == WaitsOf(requests[..i])
    {
      assert requests[..i + 1][..i] == requests[..i];
      var wait := limiter.Reserve(requests[i].key, requests[i].call.now, requests[i].call.delay);
      waits := waits + [wait];
    }
    assert requests[..|requests|] == requests;
  }
}
