/** The 16-bit quarters of a fingerprint, and the distance between fingerprints in terms of them. */
module Quarters {
  import opened Bits
  import opened Sets

  function Quarter0(h: bv64): bv16 { (h >> 48) as bv16 }
  function Quarter1(h: bv64): bv16 { ((h >> 32) & 0xFFFF) as bv16 }
  function Quarter2(h: bv64): bv16 { ((h >> 16) & 0xFFFF) as bv16 }
  function Quarter3(h: bv64): bv16 { (h & 0xFFFF) as bv16 }

  /** partitionHash: most significant quarter first. */
  function PartitionHash(h: bv64): (parts: seq<bv16>)
    ensures |parts| == 4
  {
    [Quarter0(h), Quarter1(h), Quarter2(h), Quarter3(h)]
  }

  /** Four quarters put back together. */
  function Assemble(parts: seq<bv16>): bv64
    requires |parts| == 4
  {
    Glue(parts[0], parts[1], parts[2], parts[3])
  }

  function Glue(p0: bv16, p1: bv16, p2: bv16, p3: bv16): bv64 {
    ((p0 as bv64) << 48) | ((p1 as bv64) << 32) | ((p2 as bv64) << 16) | (p3 as bv64)
  }

  lemma GlueQuarters(h: bv64)
    ensures Glue(Quarter0(h), Quarter1(h), Quarter2(h), Quarter3(h)) == h
  {
  }

  lemma QuartersOfGlue(p0: bv16, p1: bv16, p2: bv16, p3: bv16, h: bv64)
    requires h == Glue(p0, p1, p2, p3)
    ensures Quarter0(h) == p0 && Quarter1(h) == p1 && Quarter2(h) == p2 && Quarter3(h) == p3
  {
  }

  /** partitionHash is a bijection: Assemble is its inverse on both sides. */
  lemma PartitionIsBijection(h: bv64, parts: seq<bv16>)
    requires |parts| == 4
    ensures Assemble(PartitionHash(h)) == h
    ensures PartitionHash(Assemble(parts)) == parts
  {
    GlueQuarters(h);
    QuartersOfGlue(parts[0], parts[1], parts[2], parts[3], Assemble(parts));
  }

  // ----- counting set bits 16 at a time -----

  function Weight(x: bv64): nat {
    |Ones(x)|
  }

  lemma BitOfShift(x: bv64, y: bv64, i: Position)
    requires y == x >> 16
    ensures Bit(y, i) <==> i < 48 && Bit(x, i + 16)
  {
  }

  lemma BitOfLow(x: bv64, y: bv64, i: Position)
    requires y == x & 0xFFFF
    ensures Bit(y, i) <==> i < 16 && Bit(x, i)
  {
  }

  function Up(s: set<Position>): set<Position> {
    set i | i in s && i < 48 :: i + 16
  }

  lemma InUp(s: set<Position>, i: Position)
    ensures i in Up(s) <==> i >= 16 && i - 16 in s
  {
    if i >= 16 && i - 16 in s {
      assert (i - 16) + 16 == i && i - 16 < 48;
    }
  }

  lemma {:induction false} UpSize(s: set<Position>)
    requires forall i :: i in s ==> i < 48
    ensures |Up(s)| == |s|
  {
    if s == {} {
    } else {
      var i := AnyOf(s);
      UpSize(s - {i});
      forall j: Position
        ensures j in Up(s) <==> j in Up(s - {i}) + {i + 16}
      {
        InUp(s, j);
        InUp(s - {i}, j);
      }
      InUp(s - {i}, i + 16);
      assert Up(s) == Up(s - {i}) + {i + 16};
    }
  }

  lemma SplitBit(x: bv64, low: bv64, high: bv64, i: Position)
    requires low == x & 0xFFFF && high == x >> 16
    ensures i in Ones(low) <==> i < 16 && i in Ones(x)
    ensures i in Up(Ones(high)) <==> i >= 16 && i in Ones(x)
  {
    BitOfLow(x, low, i);
    InUp(Ones(high), i);
    if i >= 16 {
      BitOfShift(x, high, i - 16);
      assert (i - 16) + 16 == i;
    }
  }

  /** The set bits of x are those of its low quarter and, moved up, those of x >> 16. */
  lemma OnesSplit(x: bv64, low: bv64, high: bv64)
    requires low == x & 0xFFFF && high == x >> 16
    ensures Ones(x) == Ones(low) + Up(Ones(high)) && Ones(low) !! Up(Ones(high))
  {
    forall i: Position
      ensures i in Ones(low) <==> i < 16 && i in Ones(x)
      ensures i in Up(Ones(high)) <==> i >= 16 && i in Ones(x)
    {
      SplitBit(x, low, high, i);
    }
  }

  lemma OnesOfShift(x: bv64, high: bv64)
    requires high == x >> 16
    ensures |Up(Ones(high))| == |Ones(high)|
  {
    forall i | i in Ones(high)
      ensures i < 48
    {
      BitOfShift(x, high, i);
    }
    UpSize(Ones(high));
  }

  lemma WeightSplit(x: bv64, low: bv64, high: bv64)
    requires low == x & 0xFFFF && high == x >> 16
    ensures Weight(x) == Weight(low) + Weight(high)
  {
    OnesSplit(x, low, high);
    OnesOfShift(x, high);
  }

  lemma WeightChain(x: bv64, x1: bv64, x2: bv64, q0: bv64, q1: bv64, q2: bv64, q3: bv64)
    requires x1 == x >> 16 && x2 == x1 >> 16
    requires q0 == x2 >> 16 && q1 == x2 & 0xFFFF && q2 == x1 & 0xFFFF && q3 == x & 0xFFFF
    ensures Weight(x) == Weight(q0) + Weight(q1) + Weight(q2) + Weight(q3)
  {
    WeightSplit(x, q3, x1);
    WeightSplit(x1, q2, x2);
    WeightSplit(x2, q1, q0);
  }

  // ----- distance by quarters -----

  function QuarterXor(p: bv16, q: bv16): bv64 {
    (p as bv64) ^ (q as bv64)
  }

  function QuarterDist(p: bv16, q: bv16): nat {
    Weight(QuarterXor(p, q))
  }

  /** The xor of two quarters is the quarter of the xor. */
  lemma QuartersOfXor(a: bv64, b: bv64, x: bv64, x1: bv64, x2: bv64)
    requires x == a ^ b && x1 == x >> 16 && x2 == x1 >> 16
    ensures QuarterXor(Quarter0(a), Quarter0(b)) == x2 >> 16
    ensures QuarterXor(Quarter1(a), Quarter1(b)) == x2 & 0xFFFF
    ensures QuarterXor(Quarter2(a), Quarter2(b)) == x1 & 0xFFFF
    ensures QuarterXor(Quarter3(a), Quarter3(b)) == x & 0xFFFF
  {
  }

  /** The distance is the sum of the distances of the four quarters. */
  lemma DistIsSumOfQuarters(a: bv64, b: bv64)
    ensures Dist(a, b) == QuarterDist(Quarter0(a), Quarter0(b)) + QuarterDist(Quarter1(a), Quarter1(b))
                        + QuarterDist(Quarter2(a), Quarter2(b)) + QuarterDist(Quarter3(a), Quarter3(b))
  {
    var x := a ^ b;
    var x1 := x >> 16;
    var x2 := x1 >> 16;
    QuartersOfXor(a, b, x, x1, x2);
    WeightChain(x, x1, x2, QuarterXor(Quarter0(a), Quarter0(b)), QuarterXor(Quarter1(a), Quarter1(b)),
                QuarterXor(Quarter2(a), Quarter2(b)), QuarterXor(Quarter3(a), Quarter3(b)));
  }

  lemma QuarterDistZero(p: bv16, q: bv16)
    ensures QuarterDist(p, q) == 0 <==> p == q
  {
    OnesEmpty(QuarterXor(p, q));
    QuarterXorZero(p, q);
  }

  lemma QuarterXorZero(p: bv16, q: bv16)
    ensures QuarterXor(p, q) == 0 <==> p == q
  {
    XorZero(p as bv64, q as bv64);
    if p as bv64 == q as bv64 { NarrowEqual(p, q); }
  }

  lemma NarrowEqual(p: bv16, q: bv16)
    requires p as bv64 == q as bv64
    ensures p == q
  {
  }

  /** Pigeonhole: at most three differing bits leave one of four quarters untouched. */
  lemma ShareQuarter(a: bv64, b: bv64) returns (i: nat)
    requires Dist(a, b) <= 3
    ensures i < 4 && PartitionHash(a)[i] == PartitionHash(b)[i]
  {
    DistIsSumOfQuarters(a, b);
    QuarterDistZero(Quarter0(a), Quarter0(b));
    QuarterDistZero(Quarter1(a), Quarter1(b));
    QuarterDistZero(Quarter2(a), Quarter2(b));
    QuarterDistZero(Quarter3(a), Quarter3(b));
    i := if Quarter0(a) == Quarter0(b) then 0
         else if Quarter1(a) == Quarter1(b) then 1
         else if Quarter2(a) == Quarter2(b) then 2
         else 3;
  }
}
