/** Whole runs of the near-duplicate index. */
module IndexRuns {
  import opened Numbers
  import opened Bits
  import opened Sets
  import opened Lists
  import opened Quarters
  import opened Grouping
  import opened Fingerprint
  import opened SimhashIndex
  import opened Packing

  // ----- the tables refine the linear scan -----

  datatype Op = Insert(h: bv64) | Query(h: bv64, d: int)

  /** What is stored, and what the queries answered so far. */
  datatype Trace = Trace(stored: seq<bv64>, answers: seq<bool>)

  ghost function StepWith(t: Trace, op: Op, dup: bool): Trace {
    match op
    case Insert(h) => t.(stored := t.stored + [h])
    case Query(h, _) => Trace(t.stored + if dup then [] else [h], t.answers + [dup])
  }

  /** One operation answered from the tables. */
  ghost function StepTables(t: Trace, op: Op): Trace {
    StepWith(t, op, op.Query? && Hit(t.stored, op.h, op.d))
  }

  /** One operation answered by comparing with everything. */
  ghost function StepScan(t: Trace, op: Op): Trace {
    StepWith(t, op, op.Query? && LinearScan(t.stored, op.h, op.d))
  }

  ghost function RunTables(ops: seq<Op>): Trace {
    if ops == [] then Trace([], []) else StepTables(RunTables(ops[..|ops| - 1]), ops[|ops| - 1])
  }

  ghost function RunScan(ops: seq<Op>): Trace {
    if ops == [] then Trace([], []) else StepScan(RunScan(ops[..|ops| - 1]), ops[|ops| - 1])
  }

  predicate Close(ops: seq<Op>) {
    forall i :: 0 <= i < |ops| && ops[i].Query? ==> ops[i].d <= 3
  }

  /** With distances up to 3, every run stores and answers exactly what the linear scan would. */
  lemma {:induction false} TablesRefineScan(ops: seq<Op>)
    requires Close(ops)
    ensures RunTables(ops) == RunScan(ops)
  {
    if ops == [] {
    } else {
      var n := |ops| - 1;
      TablesRefineScan(ops[..n]);
      if ops[n].Query? { HitIsLinearScan(RunScan(ops[..n]).stored, ops[n].h, ops[n].d); }
    }
  }

  /** The same for the class: any sequence of calls on a new index. */
  method Replay(ops: seq<Op>) returns (index: Index, answers: seq<bool>)
    ensures fresh(index) && index.Valid()
    ensures RunTables(ops) == Trace(index.Stored, answers)
    ensures Close(ops) ==> RunScan(ops) == Trace(index.Stored, answers)
  {
    index := new Index();
    answers := [];
    for i := 0 to |ops|
      invariant fresh(index) && fresh(index.Buckets) && index.Valid()
      invariant RunTables(ops[..i]) == Trace(index.Stored, answers)
    {
      assert ops[..i + 1][..i] == ops[..i];
      match ops[i]
      case Insert(h) =>
        index.Add(h);
      case Query(h, d) =>
        var dup := index.IsNearDuplicate(h, d);
        answers := answers + [dup];
    }
    assert ops[..|ops|] == ops;
    if Close(ops) { TablesRefineScan(ops); }
  }

  // ----- an index grown only by IsNearDuplicate(., 3) -----

  /** What one call leaves stored. */
  ghost function Admit(stored: seq<bv64>, h: bv64): seq<bv64> {
    if LinearScan(stored, h, MAX_HAMMING_DIST) then stored else stored + [h]
  }

  ghost function AdmitAll(hs: seq<bv64>): seq<bv64> {
    if hs == [] then [] else Admit(AdmitAll(hs[..|hs| - 1]), hs[|hs| - 1])
  }

  ghost predicate Separated(stored: seq<bv64>) {
    forall i, j :: 0 <= i < j < |stored| ==> Dist(stored[i], stored[j]) > MAX_HAMMING_DIST
  }

  ghost predicate Covers(stored: seq<bv64>, hs: seq<bv64>) {
    forall i :: 0 <= i < |hs| ==> LinearScan(stored, hs[i], MAX_HAMMING_DIST)
  }

  lemma AdmitSeparated(stored: seq<bv64>, h: bv64)
    requires Separated(stored)
    ensures Separated(Admit(stored, h))
  {
    if !LinearScan(stored, h, MAX_HAMMING_DIST) {
      forall i | 0 <= i < |stored|
        ensures Dist(stored[i], h) > MAX_HAMMING_DIST
      {
        DistSymmetric(stored[i], h);
        assert stored[i] in stored;
      }
    }
  }

  lemma AdmitNear(stored: seq<bv64>, h: bv64, g: bv64)
    ensures LinearScan(Admit(stored, h), h, MAX_HAMMING_DIST)
    ensures LinearScan(stored, g, MAX_HAMMING_DIST) ==> LinearScan(Admit(stored, h), g, MAX_HAMMING_DIST)
  {
    DistZero(h, h);
    if !LinearScan(stored, h, MAX_HAMMING_DIST) {
      assert h in stored + [h];
    }
    if LinearScan(stored, g, MAX_HAMMING_DIST) {
      var c :| c in stored && Dist(g, c) <= MAX_HAMMING_DIST;
      assert c in Admit(stored, h);
    }
  }

  lemma AdmitCoversAt(stored: seq<bv64>, hs: seq<bv64>, h: bv64, i: nat)
    requires Covers(stored, hs) && i <= |hs|
    ensures LinearScan(Admit(stored, h), (hs + [h])[i], MAX_HAMMING_DIST)
  {
    var g := (hs + [h])[i];
    AdmitNear(stored, h, g);
    if i < |hs| { assert g == hs[i]; }
  }

  lemma AdmitCovers(stored: seq<bv64>, hs: seq<bv64>, h: bv64)
    requires Covers(stored, hs)
    ensures Covers(Admit(stored, h), hs + [h])
  {
    forall i | 0 <= i < |hs + [h]|
      ensures LinearScan(Admit(stored, h), (hs + [h])[i], MAX_HAMMING_DIST)
    {
      AdmitCoversAt(stored, hs, h, i);
    }
  }

  /**
   * After any calls: the stored fingerprints are pairwise more than 3 apart, and every
   * fingerprint ever submitted is within 3 of a stored one.
   */
  lemma {:induction false} SeparatedCover(hs: seq<bv64>)
    ensures Separated(AdmitAll(hs)) && Covers(AdmitAll(hs), hs)
  {
    if hs == [] {
    } else {
      var earlier, h := hs[..|hs| - 1], hs[|hs| - 1];
      SeparatedCover(earlier);
      AdmitSeparated(AdmitAll(earlier), h);
      AdmitCovers(AdmitAll(earlier), earlier, h);
      assert earlier + [h] == hs;
    }
  }

  function Queries(hs: seq<bv64>): seq<Op> {
    if hs == [] then [] else Queries(hs[..|hs| - 1]) + [Query(hs[|hs| - 1], MAX_HAMMING_DIST)]
  }

  /** AdmitAll is what a run of such calls stores. */
  lemma {:induction false} AdmitAllIsRun(hs: seq<bv64>)
    ensures RunScan(Queries(hs)).stored == AdmitAll(hs) && Close(Queries(hs))
  {
    if hs == [] {
    } else {
      var n := |hs| - 1;
      AdmitAllIsRun(hs[..n]);
      assert Queries(hs)[..|Queries(hs)| - 1] == Queries(hs[..n]);
    }
  }

  lemma SeparatedDistinct(stored: seq<bv64>)
    requires Separated(stored)
    ensures Distinct(stored)
  {
    forall i, j | 0 <= i < j < |stored|
      ensures stored[i] != stored[j]
    {
      DistZero(stored[i], stored[j]);
    }
  }

  /** Each stored fingerprint sits exactly once in each of the four tables, in its own bucket. */
  lemma OncePerTable(tables: seq<Table>, stored: seq<bv64>, i: nat, key: bv16)
    requires Indexes(tables, stored) && Separated(stored) && i < 4
    ensures Distinct(Lookup(tables[i], key))
    ensures forall c :: c in Lookup(tables[i], key) <==> c in stored && PartitionHash(c)[i] == key
  {
    assert Lookup(tables[i], key) == Select(stored, Part(i), key);
    SeparatedDistinct(stored);
    SelectDistinct(stored, Part(i), key);
  }

  lemma SeparatedApart(stored: seq<bv64>)
    requires Separated(stored)
    ensures Apart(ToSet(stored))
  {
    forall a, b | a in stored && b in stored && a != b
      ensures Dist(a, b) > 3
    {
      var i :| 0 <= i < |stored| && stored[i] == a;
      var j :| 0 <= j < |stored| && stored[j] == b;
      DistSymmetric(a, b);
    }
  }

  /** However long the crawl, the index never holds more than 2^57 fingerprints. */
  lemma IndexNeverOverfull(hs: seq<bv64>)
    ensures |AdmitAll(hs)| <= Pow2(57)
  {
    SeparatedCover(hs);
    SeparatedDistinct(AdmitAll(hs));
    SeparatedApart(AdmitAll(hs));
    DistinctSize(AdmitAll(hs));
    PackingBound(ToSet(AdmitAll(hs)));
  }

  // ----- edited pages -----

  /** The shingles of an edited page that overlap the edit. */
  function Overlapping(x: seq<string>, u: seq<string>, y: seq<string>): (r: seq<string>) {
    var all := ShinglesOf(x + u + y);
    var front, back := |ShinglesOf(x)|, |ShinglesOf(y)|;
    if front + back <= |all| then all[front..|all| - back] else []
  }

  lemma ShinglesBehind(rest: seq<string>, y: seq<string>)
    ensures |ShinglesOf(y)| <= |ShinglesOf(rest + y)|
    ensures ShinglesOf(rest + y)[|ShinglesOf(rest + y)| - |ShinglesOf(y)|..] == ShinglesOf(y)
  {
    var all, back := ShinglesOf(rest + y), |ShinglesOf(y)|;
    forall i | 0 <= i < back
      ensures all[|all| - back + i] == ShinglesOf(y)[i]
    {
      var at := |rest| + i;
      assert (rest + y)[|rest|..] == y;
      assert (rest + y)[at..at + SHINGLE_SIZE] == (rest + y)[|rest|..][i..i + SHINGLE_SIZE];
    }
  }

  /** Exchanging the tokens u touches at most |u| + 2 shingles. */
  lemma ShinglesAroundEdit(x: seq<string>, u: seq<string>, y: seq<string>)
    ensures ShinglesOf(x + u + y) == ShinglesOf(x) + Overlapping(x, u, y) + ShinglesOf(y)
    ensures |Overlapping(x, u, y)| <= |u| + 2
  {
    assert x + u + y == x + (u + y);
    ShinglesInFront(x, u + y);
    ShinglesBehind(x + u, y);
  }

  lemma KeptAndExchanged(x: seq<string>, u: seq<string>, y: seq<string>)
    ensures multiset(ShinglesOf(x + u + y)) == multiset(ShinglesOf(x) + ShinglesOf(y) + Overlapping(x, u, y))
  {
    ShinglesAroundEdit(x, u, y);
  }

  lemma MarginGrows(a: seq<string>, sum: string -> bv64, m: nat, n: nat)
    requires m <= n
    ensures |MarginalBits(a, sum, m)| <= |MarginalBits(a, sum, n)|
  {
    SubsetSize(MarginalBits(a, sum, m), MarginalBits(a, sum, n));
  }

  lemma ExchangeIsNear(
    fa: bv64, fb: bv64, a: seq<string>, b: seq<string>, kept: seq<string>, gone: seq<string>, come: seq<string>,
    sum: string -> bv64, m: nat)
    requires multiset(a) == multiset(kept + gone) && multiset(b) == multiset(kept + come) && |gone| + |come| <= m
    requires IsSimHash(fa, a, sum) && IsSimHash(fb, b, sum) && |MarginalBits(a, sum, m)| <= MAX_HAMMING_DIST
    ensures Dist(fa, fb) <= MAX_HAMMING_DIST
  {
    EditFlipsOnlyMarginalBits(fa, fb, a, b, kept, gone, come, sum);
    MarginGrows(a, sum, |gone| + |come|, m);
  }

  /**
   * Replace the tokens u of a page by v. If at most 3 bits of the old vote lie within the margin
   * |u| + |v| + 4, the two fingerprints are at most 3 apart.
   */
  lemma EditedPageIsNear(
    x: seq<string>, u: seq<string>, y: seq<string>, v: seq<string>, sum: string -> bv64, old': bv64, new': bv64)
    requires IsSimHash(old', ShinglesOf(x + u + y), sum) && IsSimHash(new', ShinglesOf(x + v + y), sum)
    requires |MarginalBits(ShinglesOf(x + u + y), sum, |u| + |v| + 4)| <= MAX_HAMMING_DIST
    ensures Dist(old', new') <= MAX_HAMMING_DIST
  {
    var a, b := ShinglesOf(x + u + y), ShinglesOf(x + v + y);
    var gone, come := Overlapping(x, u, y), Overlapping(x, v, y);
    var kept := ShinglesOf(x) + ShinglesOf(y);
    assert |gone| + |come| <= |u| + |v| + 4 by {
      ShinglesAroundEdit(x, u, y);
      ShinglesAroundEdit(x, v, y);
    }
    KeptAndExchanged(x, u, y);
    KeptAndExchanged(x, v, y);
    ExchangeIsNear(old', new', a, b, kept, gone, come, sum, |u| + |v| + 4);
  }

  /** Such an edit of a stored page is reported as a duplicate, whatever else the index holds. */
  lemma EditedPageIsDuplicate(
    x: seq<string>, u: seq<string>, y: seq<string>, v: seq<string>, sum: string -> bv64, old': bv64, new': bv64,
    stored: seq<bv64>)
    requires IsSimHash(old', ShinglesOf(x + u + y), sum) && IsSimHash(new', ShinglesOf(x + v + y), sum)
    requires |MarginalBits(ShinglesOf(x + u + y), sum, |u| + |v| + 4)| <= MAX_HAMMING_DIST
    requires old' in stored
    ensures Hit(stored, new', MAX_HAMMING_DIST)
  {
    EditedPageIsNear(x, u, y, v, sum, old', new');
    DistSymmetric(old', new');
    HitIsLinearScan(stored, new', MAX_HAMMING_DIST);
  }
}
