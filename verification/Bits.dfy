/** 64-bit words as sets of bit positions, and the Hamming distance between them. */
module Bits {
  import opened Sets

  /** A bit position, 0 to 63, as a shift amount. */
  type Position = bv6

  predicate Bit(x: bv64, k: Position) {
    (x >> k) & 1 == 1
  }

  function UpTo(k: Position): (s: set<Position>)
    ensures forall i: Position :: i in s <==> i <= k
    decreases k
  {
    if k == 0 then {0} else UpTo(k - 1) + {k}
  }

  function AllPositions(): (s: set<Position>)
    ensures forall i: Position :: i in s
  {
    UpTo(63)
  }

  lemma {:induction false} UpToSize(k: Position)
    ensures |UpTo(k)| == k as int + 1
    decreases k
  {
    if k != 0 {
      UpToSize(k - 1);
      assert (k - 1) as int == k as int - 1;
    }
  }

  /** The positions of the set bits of x. */
  function Ones(x: bv64): (s: set<Position>)
    ensures forall k: Position :: k in s <==> Bit(x, k)
  {
    set k: Position | k in AllPositions() && Bit(x, k)
  }

  /** The Hamming distance: the number of positions where a and b differ. */
  function Dist(a: bv64, b: bv64): nat {
    |Ones(a ^ b)|
  }

  // ----- bitwise operators, bit by bit -----

  lemma XorBit(a: bv64, b: bv64, k: Position)
    ensures Bit(a ^ b, k) <==> Bit(a, k) != Bit(b, k)
  {
  }

  /** Xor-ing with 1 << k flips bit k and changes no other bit. */
  lemma FlipBit(a: bv64, k: Position, i: Position)
    ensures Bit(a ^ (1 << k), i) <==> Bit(a, i) != (i == k)
  {
  }

  /** Or-ing with 1 << k sets bit k and changes no other bit. */
  lemma SetBit(a: bv64, k: Position, i: Position)
    ensures Bit(a | (1 << k), i) <==> Bit(a, i) || i == k
  {
  }

  lemma ZeroBit(i: Position)
    ensures !Bit(0, i)
  {
  }

  // ----- clearing the lowest set bit -----

  predicate ZeroBelow(x: bv64, k: Position) {
    x & (((1 as bv64) << k) - 1) == 0
  }

  lemma ZeroBelowFirst(x: bv64)
    ensures ZeroBelow(x, 0)
  {
  }

  lemma ZeroBelowNext(x: bv64, k: Position)
    requires x != 0 && ZeroBelow(x, k) && !Bit(x, k)
    ensures k < 63 && ZeroBelow(x, k + 1)
  {
  }

  /** The lowest set bit of x, searched from position i upwards. */
  lemma {:induction false} LowestFrom(x: bv64, i: Position) returns (k: Position)
    requires x != 0 && ZeroBelow(x, i)
    ensures Bit(x, k) && ZeroBelow(x, k)
    decreases 63 - i
  {
    if Bit(x, i) {
      k := i;
    } else {
      ZeroBelowNext(x, i);
      k := LowestFrom(x, i + 1);
    }
  }

  lemma ClearWord(x: bv64, k: Position)
    requires Bit(x, k) && ZeroBelow(x, k)
    ensures x & (x - 1) == x ^ (1 << k)
  {
  }

  lemma ClearBit(x: bv64, y: bv64, k: Position, i: Position)
    requires Bit(x, k) && ZeroBelow(x, k) && y == x & (x - 1)
    ensures Bit(y, i) <==> Bit(x, i) && i != k
  {
    ClearWord(x, k);
    FlipBit(x, k, i);
  }

  /** x & (x - 1) clears exactly one set bit. */
  lemma ClearLowest(x: bv64) returns (k: Position)
    requires x != 0
    ensures k in Ones(x) && Ones(x & (x - 1)) == Ones(x) - {k}
  {
    ZeroBelowFirst(x);
    k := LowestFrom(x, 0);
    var y := x & (x - 1);
    forall i: Position
      ensures Bit(y, i) <==> Bit(x, i) && i != k
    {
      ClearBit(x, y, k, i);
    }
    assert Ones(y) == Ones(x) - {k};
  }

  /** A word is zero exactly when it has no set bit. */
  lemma OnesEmpty(x: bv64)
    ensures Ones(x) == {} <==> x == 0
  {
    if x == 0 {
      forall k: Position
        ensures k !in Ones(x)
      {
        ZeroBit(k);
      }
    } else {
      var k := ClearLowest(x);
    }
  }

  lemma XorZero(a: bv64, b: bv64)
    ensures a ^ b == 0 <==> a == b
  {
  }

  /** Words with the same set bits are equal. */
  lemma Extensional(a: bv64, b: bv64)
    requires forall k: Position :: Bit(a, k) == Bit(b, k)
    ensures a == b
  {
    var x := a ^ b;
    forall k: Position
      ensures k !in Ones(x)
    {
      XorBit(a, b, k);
    }
    assert Ones(x) == {};
    OnesEmpty(x);
    XorZero(a, b);
  }

  // ----- the distance is a metric -----

  lemma DistBound(a: bv64, b: bv64)
    ensures Dist(a, b) <= 64
  {
    UpToSize(63);
    SubsetSize(Ones(a ^ b), AllPositions());
  }

  lemma DistZero(a: bv64, b: bv64)
    ensures Dist(a, b) == 0 <==> a == b
  {
    OnesEmpty(a ^ b);
    XorZero(a, b);
  }

  lemma DistSymmetric(a: bv64, b: bv64)
    ensures Dist(a, b) == Dist(b, a)
  {
    assert a ^ b == b ^ a;
  }

  lemma XorTriangle(a: bv64, b: bv64, c: bv64, k: Position)
    ensures Bit(a ^ c, k) ==> Bit(a ^ b, k) || Bit(b ^ c, k)
  {
    XorBit(a, b, k);
    XorBit(b, c, k);
    XorBit(a, c, k);
  }

  lemma DistTriangle(a: bv64, b: bv64, c: bv64)
    ensures Dist(a, c) <= Dist(a, b) + Dist(b, c)
  {
    var ab, bc := Ones(a ^ b), Ones(b ^ c);
    forall k | k in Ones(a ^ c)
      ensures k in ab + bc
    {
      XorTriangle(a, b, c, k);
    }
    SubsetSize(Ones(a ^ c), ab + bc);
    assert |ab + bc| == |ab| + |bc| - |ab * bc|;
  }

  /**
   * hammingDistance: clear the lowest set bit of a ^ b until nothing is left. Every round
   * counts one, so the result is also the number of rounds.
   */
  method HammingDistance(a: bv64, b: bv64) returns (dist: nat)
    ensures dist == Dist(a, b)
  {
    var x := a ^ b;
    dist := 0;
    while x != 0
      invariant dist + |Ones(x)| == Dist(a, b)
      decreases |Ones(x)|
    {
      ghost var k := ClearLowest(x);
      dist := dist + 1;
      x := x & (x - 1);
    }
    OnesEmpty(x);
  }
}
