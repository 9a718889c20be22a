/** The content check of a crawl worker, alone and in every interleaving with other workers. */
module Crawl {
  import opened Numbers
  import opened Options
  import opened Bits
  import opened Grouping
  import opened Quarters
  import opened Lists
  import opened Sets
  import opened Fingerprint
  import opened SimhashIndex
  import opened IndexRuns
  import opened Packing

  // ----- one worker -----

  /** What the outside world answers during one call, in the order in which it is asked. */
  datatype World = World(
    urlOk: bool, metaOk: bool, robotsOk: bool, allowed: bool, reserveOk: bool, wait: int, github: bool,
    repoPath: bool, fetchOk: bool, readmeOk: bool, base64: bool, decodeOk: bool, cleanOk: bool, text: string,
    storeOk: bool, emptyKey: bool, queueOk: bool, repoUrl: string)

  datatype Outcome = Success | RateLimited(waitMs: int) | Failure

  datatype ParseJob = ParseJob(url: string, fp: bv64)

  /** The returns of the GitHub path before its content check; None when it gets as far as the check. */
  function RepoReturn(w: World): Option<Outcome> {
    if !w.repoPath || !w.fetchOk || !w.readmeOk then Some(Failure)
    else if !w.base64 then Some(Success)
    else if !w.decodeOk || !w.cleanOk then Some(Failure)
    else None
  }

  /** The same for a whole call. */
  function EarlyReturn(w: World): Option<Outcome> {
    if !w.urlOk || !w.metaOk || !w.robotsOk then Some(Failure)
    else if !w.allowed then Some(Success)
    else if !w.reserveOk then Some(Failure)
    else if w.wait > 0 then Some(RateLimited(w.wait))
    else if w.github then RepoReturn(w)
    else if !w.fetchOk || !w.cleanOk then Some(Failure)
    else None
  }

  predicate RepoPublished(w: World) {
    w.storeOk && w.queueOk
  }

  /** Only the HTML path checks that the store returned a key. */
  predicate Published(w: World) {
    RepoPublished(w) && (w.github || !w.emptyKey)
  }

  function PageFingerprint(w: World, sum: string -> bv64): bv64 {
    SimHashOf(ShinglesOf(Tokenize(w.text)), sum)
  }

  /** The call may fetch: the path is allowed and its slot has come. */
  predicate MayFetch(w: World) {
    w.urlOk && w.metaOk && w.robotsOk && w.allowed && w.reserveOk && w.wait <= 0
  }

  /** A README in an encoding that is not understood. */
  predicate OddReadme(w: World) {
    w.github && w.repoPath && w.fetchOk && w.readmeOk && !w.base64
  }

  /** The text of the page was fetched and cleaned. */
  predicate HasText(w: World) {
    w.fetchOk && w.cleanOk && (w.github ==> w.repoPath && w.readmeOk && w.base64 && w.decodeOk)
  }

  /** Everything after the content check went well. */
  predicate StoredAndQueued(w: World) {
    w.storeOk && w.queueOk && (w.github || !w.emptyKey)
  }

  /** What a call answers and leaves behind, case by case. */
  ghost predicate Answered(w: World, url: string, fp: bv64, out: Outcome, stored: seq<bv64>, stored': seq<bv64>,
                           queue: seq<ParseJob>, queue': seq<ParseJob>) {
    var dup := exists c :: c in stored && Dist(fp, c) <= 3;
    var isNew := MayFetch(w) && HasText(w) && !dup;
    && (forall ms :: out == RateLimited(ms) <==>
          w.urlOk && w.metaOk && w.robotsOk && w.allowed && w.reserveOk && w.wait > 0 && ms == w.wait)
    && (out == Success <==>
          || (w.urlOk && w.metaOk && w.robotsOk && !w.allowed)
          || (MayFetch(w) && (OddReadme(w) || (HasText(w) && (dup || StoredAndQueued(w))))))
    && stored' == stored + (if isNew then [fp] else [])
    && queue' == queue + if isNew && StoredAndQueued(w) then [ParseJob(if w.github then w.repoUrl else url, fp)] else []
  }

  /** The content check and what follows it. */
  ghost predicate Ends(fp: bv64, published: bool, url: string, out: Outcome, stored: seq<bv64>, stored': seq<bv64>,
                       queue: seq<ParseJob>, queue': seq<ParseJob>) {
    var dup := LinearScan(stored, fp, MAX_HAMMING_DIST);
    && stored' == Admit(stored, fp)
    && out == (if dup || published then Success else Failure)
    && queue' == queue + if !dup && published then [ParseJob(url, fp)] else []
  }

  lemma CheckedAnswer(w: World, url: string, fp: bv64, out: Outcome, stored: seq<bv64>, stored': seq<bv64>,
                      queue: seq<ParseJob>, queue': seq<ParseJob>)
    requires MayFetch(w)
    requires EarlyReturn(w).Some? ==> out == EarlyReturn(w).value && stored' == stored && queue' == queue
    requires EarlyReturn(w).None? ==>
               Ends(fp, Published(w), if w.github then w.repoUrl else url, out, stored, stored', queue, queue')
    ensures Answered(w, url, fp, out, stored, stored', queue, queue')
  {
  }

  /** A success that leaves everything as it was: the path is disallowed, the README odd, or the page a duplicate. */
  lemma QuietSuccess(w: World, url: string, fp: bv64, out: Outcome, stored: seq<bv64>, stored': seq<bv64>,
                     queue: seq<ParseJob>, queue': seq<ParseJob>)
    requires Answered(w, url, fp, out, stored, stored', queue, queue')
    ensures out == Success && stored' == stored && queue' == queue <==>
              || (w.urlOk && w.metaOk && w.robotsOk && !w.allowed)
              || (MayFetch(w) && OddReadme(w))
              || (MayFetch(w) && HasText(w) && exists c :: c in stored && Dist(fp, c) <= 3)
  {
    assert |stored + [fp]| == |stored| + 1;
  }

  class Crawler {
    const simIndex: Index
    var parseQ: seq<ParseJob>

    ghost predicate Valid()
      reads this, simIndex, simIndex.Buckets
    {
      simIndex.Valid()
    }

    constructor ()
      ensures Valid() && fresh(simIndex) && fresh(simIndex.Buckets) && simIndex.Stored == [] && parseQ == []
    {
      simIndex := new Index();
      parseQ := [];
    }

    /** FetchAndStoreRaw together with processGithubRepo. */
    method FetchAndStoreRaw(url: string, w: World, sum: string -> bv64) returns (out: Outcome)
      requires Valid()
      modifies this`parseQ, simIndex`Stored, simIndex.Buckets
      ensures Valid()
      ensures EarlyReturn(w).Some? ==>
                out == EarlyReturn(w).value && simIndex.Stored == old(simIndex.Stored) && parseQ == old(parseQ)
      ensures EarlyReturn(w).None? ==>
                Ends(PageFingerprint(w, sum), Published(w), if w.github then w.repoUrl else url, out,
                     old(simIndex.Stored), simIndex.Stored, old(parseQ), parseQ)
      ensures Answered(w, url, PageFingerprint(w, sum), out, old(simIndex.Stored), simIndex.Stored, old(parseQ), parseQ)
    {
      if !w.urlOk || !w.metaOk || !w.robotsOk {
        return Failure;
      }
      if !w.allowed {
        return Success;
      }
      if !w.reserveOk {
        return Failure;
      }
      if w.wait > 0 {
        return RateLimited(w.wait);
      }
      if w.github {
        out := ProcessGithubRepo(w, sum);
      } else {
        out := ProcessHtml(url, w, sum);
      }
      CheckedAnswer(w, url, PageFingerprint(w, sum), out, old(simIndex.Stored), simIndex.Stored, old(parseQ), parseQ);
    }

    /** The content check; a page that is new is published if storing and enqueueing go well. */
    method CheckAndPublish(text: string, published: bool, url: string, sum: string -> bv64) returns (out: Outcome)
      requires Valid()
      modifies this`parseQ, simIndex`Stored, simIndex.Buckets
      ensures Valid()
      ensures Ends(SimHashOf(ShinglesOf(Tokenize(text)), sum), published, url, out,
                   old(simIndex.Stored), simIndex.Stored, old(parseQ), parseQ)
    {
      var hash := HashText(text, sum);
      var isDup := simIndex.IsNearDuplicate(hash, MAX_HAMMING_DIST);
      if isDup {
        return Success;
      }
      if !published {
        return Failure;
      }
      parseQ := parseQ + [ParseJob(url, hash)];
      return Success;
    }

    /** The rest of the call for an HTML page. */
    method ProcessHtml(url: string, w: World, sum: string -> bv64) returns (out: Outcome)
      requires Valid()
      modifies this`parseQ, simIndex`Stored, simIndex.Buckets
      ensures Valid()
      ensures !w.fetchOk || !w.cleanOk ==>
                out == Failure && simIndex.Stored == old(simIndex.Stored) && parseQ == old(parseQ)
      ensures w.fetchOk && w.cleanOk ==>
                Ends(PageFingerprint(w, sum), RepoPublished(w) && !w.emptyKey, url, out,
                     old(simIndex.Stored), simIndex.Stored, old(parseQ), parseQ)
    {
      if !w.fetchOk || !w.cleanOk {
        return Failure;
      }
      out := CheckAndPublish(w.text, w.storeOk && !w.emptyKey && w.queueOk, url, sum);
    }

    method ProcessGithubRepo(w: World, sum: string -> bv64) returns (out: Outcome)
      requires Valid()
      modifies this`parseQ, simIndex`Stored, simIndex.Buckets
      ensures Valid()
      ensures RepoReturn(w).Some? ==>
                out == RepoReturn(w).value && simIndex.Stored == old(simIndex.Stored) && parseQ == old(parseQ)
      ensures RepoReturn(w).None? ==>
                Ends(PageFingerprint(w, sum), RepoPublished(w), w.repoUrl, out,
                     old(simIndex.Stored), simIndex.Stored, old(parseQ), parseQ)
    {
      if !w.repoPath || !w.fetchOk || !w.readmeOk {
        return Failure;
      }
      if !w.base64 {
        return Success;
      }
      if !w.decodeOk || !w.cleanOk {
        return Failure;
      }
      out := CheckAndPublish(w.text, w.storeOk && w.queueOk, w.repoUrl, sum);
    }
  }

  /** Tokenize, Shingles and SimHash in a row; with the fixed window size Shingles never panics. */
  method HashText(text: string, sum: string -> bv64) returns (hash: bv64)
    ensures hash == SimHashOf(ShinglesOf(Tokenize(text)), sum)
    ensures var words := Tokenize(text);
            forall k: Position :: Bit(hash, k) <==> |words| >= 3 && 2 * |Windows(words, sum, k)| > |words| - 2
  {
    var tokens := Tokenize(text);
    var shingles := Shingles(tokens, SHINGLE_SIZE);
    hash := SimHash(shingles.value, sum);
    SimHashUnique(hash, SimHashOf(shingles.value, sum), shingles.value, sum);
    forall k: Position
      ensures Bit(hash, k) <==> |tokens| >= 3 && 2 * |Windows(tokens, sum, k)| > |tokens| - 2
    {
      FingerprintInNumbers(tokens, sum, k);
    }
  }

  // ----- all interleavings -----

  /** A page that passed the check is on its way to the parse queue, in it, or lost to a failed store or enqueue. */
  datatype Stage = OnItsWay | Queued | Lost

  datatype Page = Page(url: string, fp: bv64, stage: Stage)

  /**
   * pages: one for each stored fingerprint, in the order of insertion; queue: the pages in the
   * parse queue, by number; submitted: every fingerprint ever checked.
   */
  datatype State = State(pages: seq<Page>, queue: seq<nat>, submitted: seq<bv64>)

  /** The atomic steps of all workers: the check under the index lock, and what follows for page i. */
  datatype Step = Check(url: string, fp: bv64) | Publish(i: nat) | Fail(i: nat)

  function Prints(pages: seq<Page>): seq<bv64> {
    seq(|pages|, i requires 0 <= i < |pages| => pages[i].fp)
  }

  predicate Enabled(s: State, step: Step) {
    step.Check? || (step.i < |s.pages| && s.pages[step.i].stage == OnItsWay)
  }

  /** A step that is not enabled leaves everything as it is. */
  ghost function Next(s: State, step: Step): State {
    if !Enabled(s, step) then s
    else
      match step
      case Check(url, fp) =>
        if LinearScan(Prints(s.pages), fp, MAX_HAMMING_DIST) then s.(submitted := s.submitted + [fp])
        else s.(pages := s.pages + [Page(url, fp, OnItsWay)], submitted := s.submitted + [fp])
      case Publish(i) => s.(pages := s.pages[i := s.pages[i].(stage := Queued)], queue := s.queue + [i])
      case Fail(i) => s.(pages := s.pages[i := s.pages[i].(stage := Lost)])
  }

  /** The state after any steps of any workers, in any order. */
  ghost function After(steps: seq<Step>): State {
    if steps == [] then State([], [], [])
    else Next(After(steps[..|steps| - 1]), steps[|steps| - 1])
  }

  ghost predicate Inv(s: State) {
    && Prints(s.pages) == AdmitAll(s.submitted)
    && Distinct(s.queue)
    && (forall q :: q in s.queue ==> q < |s.pages| && s.pages[q].stage == Queued)
  }

  lemma NextKeepsInv(s: State, step: Step)
    requires Inv(s)
    ensures Inv(Next(s, step))
  {
    var s' := Next(s, step);
    if !Enabled(s, step) { return; }
    match step
    case Check(url, fp) =>
      assert s'.submitted[..|s'.submitted| - 1] == s.submitted;
      assert Prints(s'.pages) == Admit(Prints(s.pages), fp);
    case Publish(i) =>
      assert Prints(s'.pages) == Prints(s.pages);
    case Fail(i) =>
      assert Prints(s'.pages) == Prints(s.pages);
  }

  lemma {:induction false} RunsKeepInv(steps: seq<Step>)
    ensures Inv(After(steps))
  {
    if steps == [] {
    } else {
      RunsKeepInv(steps[..|steps| - 1]);
      NextKeepsInv(After(steps[..|steps| - 1]), steps[|steps| - 1]);
    }
  }

  lemma PagesApart(s: State, a: nat, b: nat)
    requires a < |s.pages| && b < |s.pages| && a != b && Separated(Prints(s.pages))
    ensures Dist(s.pages[a].fp, s.pages[b].fp) > MAX_HAMMING_DIST
  {
    var fps := Prints(s.pages);
    if a < b {
      assert Dist(fps[a], fps[b]) > MAX_HAMMING_DIST;
    } else {
      assert Dist(fps[b], fps[a]) > MAX_HAMMING_DIST;
      DistSymmetric(fps[a], fps[b]);
    }
  }

  /** The pages in the parse queue are pairwise more than 3 apart. */
  ghost predicate QueueApart(s: State) {
    && (forall j :: 0 <= j < |s.queue| ==> s.queue[j] < |s.pages|)
    && (forall j, k :: 0 <= j < k < |s.queue| ==>
          Dist(s.pages[s.queue[j]].fp, s.pages[s.queue[k]].fp) > MAX_HAMMING_DIST)
  }

  lemma QueuedPagesApart(s: State)
    requires Inv(s) && Separated(Prints(s.pages))
    ensures QueueApart(s)
  {
    forall j | 0 <= j < |s.queue|
      ensures s.queue[j] < |s.pages|
    {
      assert s.queue[j] in s.queue;
    }
    forall j, k | 0 <= j < k < |s.queue|
      ensures Dist(s.pages[s.queue[j]].fp, s.pages[s.queue[k]].fp) > MAX_HAMMING_DIST
    {
      PagesApart(s, s.queue[j], s.queue[k]);
    }
  }

  /**
   * In every interleaving: stored fingerprints are pairwise more than 3 apart, every fingerprint
   * ever checked is within 3 of a stored one, at most 2^57 pages ever pass the check, and the
   * pages in the parse queue are pairwise more than 3 apart.
   */
  lemma CrawlSafety(steps: seq<Step>)
    ensures Separated(Prints(After(steps).pages)) && Covers(Prints(After(steps).pages), After(steps).submitted)
    ensures |After(steps).pages| <= Pow2(57)
    ensures QueueApart(After(steps))
  {
    var s := After(steps);
    RunsKeepInv(steps);
    SeparatedCover(s.submitted);
    IndexNeverOverfull(s.submitted);
    QueuedPagesApart(s);
  }

  /**
   * In every interleaving the tables of an index that stores the checked pages hold each of them exactly
   * once: in the bucket of its quarter, and in no other.
   */
  lemma PagesOncePerTable(steps: seq<Step>, index: Index, i: nat, key: bv16)
    requires index.Valid() && index.Stored == Prints(After(steps).pages) && i < 4
    ensures Distinct(Lookup(index.Buckets[i], key))
    ensures forall c :: c in Lookup(index.Buckets[i], key) <==>
                          c in Prints(After(steps).pages) && PartitionHash(c)[i] == key
  {
    CrawlSafety(steps);
    OncePerTable(index.Buckets[..], index.Stored, i, key);
  }

  /**
   * The fingerprint is inserted before the page is stored, so a page lost to a failed store or
   * enqueue stays lost: nothing within 3 of it is in the parse queue, and checking it again, or
   * anything within 3 of it, finds a duplicate.
   */
  lemma LostStaysLost(steps: seq<Step>, i: nat, url: string, again: bv64)
    requires i < |After(steps).pages| && After(steps).pages[i].stage == Lost
    ensures forall q :: q in After(steps).queue ==>
              q < |After(steps).pages| && Dist(After(steps).pages[q].fp, After(steps).pages[i].fp) > MAX_HAMMING_DIST
    ensures Dist(again, After(steps).pages[i].fp) <= MAX_HAMMING_DIST ==>
              Next(After(steps), Check(url, again)).pages == After(steps).pages
  {
    var s := After(steps);
    CrawlSafety(steps);
    RunsKeepInv(steps);
    forall q | q in s.queue
      ensures q < |s.pages| && Dist(s.pages[q].fp, s.pages[i].fp) > MAX_HAMMING_DIST
    {
      PagesApart(s, q, i);
    }
    assert Prints(s.pages)[i] == s.pages[i].fp;
  }

  // ----- one call is one check followed by one publication or failure -----

  /** The fingerprints in the parse queue. */
  function QueuePrints(pages: seq<Page>, queue: seq<nat>): seq<bv64> {
    seq(|queue|, j requires 0 <= j < |queue| => if queue[j] < |pages| then pages[queue[j]].fp else 0)
  }

  /** FetchAndStoreRaw, run without interference, is two consecutive steps of the machine. */
  lemma CallIsTwoSteps(s: State, url: string, fp: bv64, w: World)
    requires Inv(s)
    ensures var dup := LinearScan(Prints(s.pages), fp, MAX_HAMMING_DIST);
            var t := Next(Next(s, Check(url, fp)), if Published(w) then Publish(|s.pages|) else Fail(|s.pages|));
            && Prints(t.pages) == Admit(Prints(s.pages), fp)
            && QueuePrints(t.pages, t.queue)
               == QueuePrints(s.pages, s.queue) + if !dup && Published(w) then [fp] else []
  {
    var checked := Next(s, Check(url, fp));
    var step := if Published(w) then Publish(|s.pages|) else Fail(|s.pages|);
    var t := Next(checked, step);
    if LinearScan(Prints(s.pages), fp, MAX_HAMMING_DIST) {
      assert t == checked;
    } else {
      assert checked.pages == s.pages + [Page(url, fp, OnItsWay)];
      assert t.pages == s.pages + [Page(url, fp, if Published(w) then Queued else Lost)];
      QueueKept(s, t.pages);
    }
  }

  lemma QueueKept(s: State, pages: seq<Page>)
    requires Inv(s) && |pages| == |s.pages| + 1 && pages[..|s.pages|] == s.pages
    ensures QueuePrints(pages, s.queue) == QueuePrints(s.pages, s.queue)
  {
    forall j | 0 <= j < |s.queue|
      ensures QueuePrints(pages, s.queue)[j] == QueuePrints(s.pages, s.queue)[j]
    {
      assert s.queue[j] in s.queue;
      assert pages[..|s.pages|][s.queue[j]] == s.pages[s.queue[j]];
    }
  }
}
