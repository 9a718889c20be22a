/** The near-duplicate index: four tables of fingerprints, each keyed by one 16-bit quarter. */
module SimhashIndex {
  import opened Grouping
  import opened Bits
  import opened Sets
  import opened Quarters
  import opened Fingerprint

  const MAX_HAMMING_DIST := 3

  // ----- what the index is meant to compute -----

  /** The reference: compare h with every stored fingerprint. */
  ghost predicate LinearScan(stored: seq<bv64>, h: bv64, d: int) {
    exists c :: c in stored && Dist(h, c) <= d
  }

  predicate SharesBelow(a: bv64, b: bv64, n: nat)
    requires n <= 4
  {
    exists i :: 0 <= i < n && PartitionHash(a)[i] == PartitionHash(b)[i]
  }

  predicate SharesQuarter(a: bv64, b: bv64) {
    SharesBelow(a, b, 4)
  }

  /** What the tables can find: a near fingerprint that has a quarter in common with h. */
  ghost predicate Hit(stored: seq<bv64>, h: bv64, d: int) {
    exists c :: c in stored && SharesQuarter(h, c) && Dist(h, c) <= d
  }

  /** Up to distance 3 the tables miss nothing; at any distance what they find is really near. */
  lemma HitIsLinearScan(stored: seq<bv64>, h: bv64, d: int)
    ensures Hit(stored, h, d) ==> LinearScan(stored, h, d)
    ensures d <= 3 ==> (Hit(stored, h, d) <==> LinearScan(stored, h, d))
  {
    if d <= 3 && LinearScan(stored, h, d) {
      var c :| c in stored && Dist(h, c) <= d;
      var i := ShareQuarter(h, c);
    }
  }

  /** One bit in each quarter: the four differences that hide a neighbour from all tables. */
  const SPREAD: bv64 := 0x0001_0001_0001_0001

  lemma SpreadSharesNothing(h: bv64, c: bv64)
    requires c == h ^ SPREAD
    ensures Quarter0(h) != Quarter0(c) && Quarter1(h) != Quarter1(c)
    ensures Quarter2(h) != Quarter2(c) && Quarter3(h) != Quarter3(c)
  {
  }

  lemma SpreadDist(h: bv64, c: bv64)
    requires c == h ^ SPREAD
    ensures Dist(h, c) <= 4
  {
    var x := h ^ c;
    assert x == SPREAD;
    forall k: Position | k in Ones(x)
      ensures k in {0, 16, 32, 48}
    {
      SpreadBit(k);
    }
    SubsetSize(Ones(x), {0, 16, 32, 48});
  }

  lemma SpreadBit(k: Position)
    ensures Bit(SPREAD, k) ==> k == 0 || k == 16 || k == 32 || k == 48
  {
  }

  /** The tables agree with the scan on all contents and queries exactly for distances up to 3. */
  lemma ExactUpToDistance3(d: int)
    ensures (forall stored: seq<bv64>, h: bv64 :: Hit(stored, h, d) <==> LinearScan(stored, h, d)) <==> d <= 3
  {
    if d <= 3 {
      forall stored: seq<bv64>, h: bv64
        ensures Hit(stored, h, d) <==> LinearScan(stored, h, d)
      {
        HitIsLinearScan(stored, h, d);
      }
    } else {
      var h: bv64 := 0;
      var c := h ^ SPREAD;
      SpreadSharesNothing(h, c);
      SpreadDist(h, c);
      assert c in [c] && !Hit([c], h, d) && LinearScan([c], h, d);
    }
  }

  // ----- the tables -----

  /** Quarter i of a fingerprint. */
  function Part(i: nat): bv64 -> bv16
    requires i < 4
  {
    h => PartitionHash(h)[i]
  }

  type Table = map<bv16, seq<bv64>>

  /** append(idx.Buckets[i][key], hash) */
  function Appended(table: Table, key: bv16, hash: bv64): Table {
    table[key := Lookup(table, key) + [hash]]
  }

  /** Table i holds exactly the stored fingerprints, grouped by quarter i. */
  ghost predicate Indexes(tables: seq<Table>, stored: seq<bv64>) {
    |tables| == 4 && forall i :: 0 <= i < 4 ==> Groups(tables[i], stored, Part(i))
  }

  lemma IndexesAppend(tables: seq<Table>, tables': seq<Table>, stored: seq<bv64>, hash: bv64)
    requires Indexes(tables, stored) && |tables'| == 4
    requires forall i :: 0 <= i < 4 ==> tables'[i] == Appended(tables[i], PartitionHash(hash)[i], hash)
    ensures Indexes(tables', stored + [hash])
  {
    forall i | 0 <= i < 4
      ensures Groups(tables'[i], stored + [hash], Part(i))
    {
      GroupsAppend(tables[i], stored, Part(i), hash);
    }
  }

  /** The fingerprints that share one of the first n quarters with a query. */
  function Candidates(tables: seq<Table>, parts: seq<bv16>, n: nat): set<bv64>
    requires n <= |tables| && n <= |parts|
  {
    if n == 0 then {}
    else
      var bucket := Lookup(tables[n - 1], parts[n - 1]);
      Candidates(tables, parts, n - 1) + set c | c in bucket
  }

  lemma SharesStep(a: bv64, b: bv64, n: nat)
    requires n < 4
    ensures SharesBelow(a, b, n + 1) <==> SharesBelow(a, b, n) || PartitionHash(a)[n] == PartitionHash(b)[n]
  {
  }

  lemma InBucket(tables: seq<Table>, stored: seq<bv64>, hash: bv64, n: nat, c: bv64)
    requires Indexes(tables, stored) && n < 4
    ensures c in Lookup(tables[n], PartitionHash(hash)[n])
        <==> c in stored && PartitionHash(hash)[n] == PartitionHash(c)[n]
  {
    var key := PartitionHash(hash)[n];
    assert Groups(tables[n], stored, Part(n));
    assert Lookup(tables[n], key) == Select(stored, Part(n), key);
  }

  lemma {:induction false} InCandidates(tables: seq<Table>, stored: seq<bv64>, hash: bv64, n: nat, c: bv64)
    requires Indexes(tables, stored) && n <= 4
    ensures c in Candidates(tables, PartitionHash(hash), n) <==> c in stored && SharesBelow(hash, c, n)
  {
    if n > 0 {
      InCandidates(tables, stored, hash, n - 1, c);
      InBucket(tables, stored, hash, n - 1, c);
      SharesStep(hash, c, n - 1);
    }
  }

  class Index {
    var Buckets: array<Table>

    /** Every fingerprint inserted so far, in order. */
    ghost var Stored: seq<bv64>

    ghost predicate Valid()
      reads this, Buckets
    {
      Indexes(Buckets[..], Stored)
    }

    constructor ()
      ensures Valid() && fresh(Buckets) && Stored == []
    {
      Buckets := new Table[4](_ => map[]);
      Stored := [];
    }

    /** The insertion loop shared by Add and IsNearDuplicate. */
    method AppendToBuckets(parts: seq<bv16>, hash: bv64)
      requires Buckets.Length == 4 && |parts| == 4
      modifies Buckets
      ensures forall i :: 0 <= i < 4 ==> Buckets[i] == Appended(old(Buckets[i]), parts[i], hash)
    {
      for i := 0 to 4
        invariant forall j :: 0 <= j < i ==> Buckets[j] == Appended(old(Buckets[j]), parts[j], hash)
        invariant forall j :: i <= j < 4 ==> Buckets[j] == old(Buckets[j])
      {
        Buckets[i] := Appended(Buckets[i], parts[i], hash);
      }
    }

    method Insert(hash: bv64, parts: seq<bv16>)
      requires Valid() && parts == PartitionHash(hash)
      modifies this`Stored, Buckets
      ensures Valid() && Stored == old(Stored) + [hash]
    {
      ghost var before := Buckets[..];
      AppendToBuckets(parts, hash);
      IndexesAppend(before, Buckets[..], Stored, hash);
      Stored := Stored + [hash];
    }

    method Add(hash: bv64)
      requires Valid()
      modifies this`Stored, Buckets
      ensures Valid() && Stored == old(Stored) + [hash]
    {
      var parts := PartitionHash(hash);
      Insert(hash, parts);
    }

    /** The fingerprints in the four buckets of a query. */
    method Collect(parts: seq<bv16>) returns (candidates: set<bv64>)
      requires Buckets.Length == 4 && |parts| == 4
      ensures candidates == Candidates(Buckets[..], parts, 4)
    {
      candidates := {};
      for i := 0 to 4
        invariant candidates == Candidates(Buckets[..], parts, i)
      {
        var bucket := Lookup(Buckets[i], parts[i]);
        candidates := candidates + set c | c in bucket;
      }
    }

    /**
     * Look for a stored fingerprint within maxDist of hash, and insert hash if there is none.
     * The map of candidates is iterated in an arbitrary order.
     */
    method IsNearDuplicate(hash: bv64, maxDist: int) returns (dup: bool)
      requires Valid()
      modifies this`Stored, Buckets
      ensures Valid() && Stored == old(Stored) + if dup then [] else [hash]
      ensures dup <==> Hit(old(Stored), hash, maxDist)
      ensures dup ==> LinearScan(old(Stored), hash, maxDist)
      ensures maxDist <= 3 ==> (dup <==> LinearScan(old(Stored), hash, maxDist))
    {
      HitIsLinearScan(Stored, hash, maxDist);
      var parts := PartitionHash(hash);
      var candidates := Collect(parts);
      forall c
        ensures c in candidates <==> c in Stored && SharesQuarter(hash, c)
      {
        InCandidates(Buckets[..], Stored, hash, 4, c);
      }
      dup := AnyWithin(candidates, hash, maxDist);
      if !dup {
        Insert(hash, parts);
      }
    }
  }

  /** The search among the candidates, in an arbitrary order. */
  method AnyWithin(candidates: set<bv64>, hash: bv64, maxDist: int) returns (found: bool)
    ensures found <==> exists c :: c in candidates && Dist(hash, c) <= maxDist
  {
    var rest := candidates;
    while rest != {}
      invariant rest <= candidates
      invariant forall c :: c in candidates && c !in rest ==> Dist(hash, c) > maxDist
    {
      ghost var some := AnyOf(rest);
      var c: bv64 :| c in rest;
      var dist := HammingDistance(hash, c);
      if dist <= maxDist {
        return true;
      }
      rest := rest - {c};
    }
    return false;
  }
}
