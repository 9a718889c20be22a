/** How many fingerprints can be pairwise more than 3 apart: a sphere-packing bound. */
module Packing {
  import opened Bits
  import opened Numbers
  import opened Sets

  ghost predicate Apart(s: set<bv64>) {
    forall a, b :: a in s && b in s && a != b ==> Dist(a, b) > 3
  }

  // ----- 64 points of 63-bit space around each fingerprint -----

  /**
   * Flip bit i of s, then drop bit 63. For i = 63 this is s itself without its top bit, for the
   * other 63 positions it is a neighbour of that.
   */
  function Point(s: bv64, i: Position): bv64 {
    (s ^ (1 << i)) & 0x7FFF_FFFF_FFFF_FFFF
  }

  lemma PointBit(s: bv64, i: Position, k: Position)
    ensures Bit(Point(s, i), k) <==> k != 63 && Bit(s, k) != (k == i)
  {
    FlipBit(s, i, k);
    DropTop(s ^ (1 << i), k);
  }

  lemma DropTop(x: bv64, k: Position)
    ensures Bit(x & 0x7FFF_FFFF_FFFF_FFFF, k) <==> k != 63 && Bit(x, k)
  {
  }

  lemma CentresAgree(s: bv64, t: bv64, i: Position, j: Position, k: Position)
    requires Point(s, i) == Point(t, j) && Bit(s ^ t, k)
    ensures k == 63 || k == i || k == j
  {
    XorBit(s, t, k);
    PointBit(s, i, k);
    PointBit(t, j, k);
  }

  lemma CentresDiffer(s: bv64, t: bv64, i: Position, j: Position, x: bv64)
    requires Point(s, i) == Point(t, j) && x == s ^ t
    ensures Ones(x) <= {63, i, j}
  {
    forall k: Position | k in Ones(x)
      ensures k == 63 || k == i || k == j
    {
      CentresAgree(s, t, i, j, k);
    }
  }

  lemma CentresNear(s: bv64, t: bv64, i: Position, j: Position)
    requires Point(s, i) == Point(t, j)
    ensures Dist(s, t) <= 3
  {
    CentresDiffer(s, t, i, j, s ^ t);
    AtMostThree(Ones(s ^ t), i, j);
  }

  lemma AtMostThree(o: set<Position>, i: Position, j: Position)
    requires o <= {63, i, j}
    ensures |o| <= 3
  {
    SubsetSize(o, {63, i, j});
  }

  lemma PointInjective(s: bv64, i: Position, j: Position)
    requires Point(s, i) == Point(s, j)
    ensures i == j
  {
    PointBit(s, i, i);
    PointBit(s, j, i);
    PointBit(s, i, j);
    PointBit(s, j, j);
  }

  function Points(s: bv64): set<bv64> {
    Image(i => Point(s, i), AllPositions())
  }

  lemma PointsSize(s: bv64)
    ensures |Points(s)| == 64
  {
    forall i: Position, j: Position | Point(s, i) == Point(s, j)
      ensures i == j
    {
      PointInjective(s, i, j);
    }
    ImageSize(i => Point(s, i), AllPositions());
    UpToSize(63);
  }

  /** The points around all the fingerprints of s. */
  function Covered(s: set<bv64>): set<bv64> {
    set c, i | c in s && i in AllPositions() :: Point(c, i)
  }

  lemma BallsApart(c: bv64, rest: set<bv64>)
    requires Apart(rest + {c}) && c !in rest
    ensures Points(c) !! Covered(rest)
  {
    forall d, i, j | d in rest && i in AllPositions() && j in AllPositions()
      ensures Point(c, i) != Point(d, j)
    {
      if Point(c, i) == Point(d, j) { CentresNear(c, d, i, j); }
    }
  }

  lemma {:induction false} CoveredSize(s: set<bv64>)
    requires Apart(s)
    ensures |Covered(s)| == 64 * |s|
  {
    if s == {} {
      assert Covered(s) == {};
    } else {
      var c := AnyOf(s);
      var rest := s - {c};
      assert rest + {c} == s;
      CoveredSize(rest);
      PointsSize(c);
      BallsApart(c, rest);
      assert Covered(s) == Points(c) + Covered(rest);
    }
  }

  // ----- counting words -----

  /** All set bits of w are below n. */
  ghost predicate Fits(w: bv64, n: nat) {
    forall k: Position :: Bit(w, k) ==> k as int < n
  }

  lemma {:induction false} PositionOf(n: nat) returns (u: Position)
    requires n < 64
    ensures u as int == n
  {
    if n == 0 {
      u := 0;
    } else {
      u := PositionOf(n - 1);
      u := u + 1;
    }
  }

  lemma PositionInjective(u: Position, k: Position)
    ensures u as int == k as int ==> u == k
  {
  }

  function Flip(w: bv64, u: Position): bv64 {
    w ^ (1 << u)
  }

  lemma FlipInjective(w: bv64, v: bv64, u: Position)
    ensures Flip(w, u) == Flip(v, u) ==> w == v
  {
  }

  function Flipped(t: set<bv64>, u: Position): set<bv64> {
    Image(w => Flip(w, u), t)
  }

  lemma FlippedSize(t: set<bv64>, u: Position)
    ensures |Flipped(t, u)| == |t|
  {
    forall w, v | Flip(w, u) == Flip(v, u)
      ensures w == v
    {
      FlipInjective(w, v, u);
    }
    ImageSize(w => Flip(w, u), t);
  }

  lemma FlipFits(w: bv64, v: bv64, n: nat, u: Position)
    requires Fits(w, n + 1) && u as int == n
    requires v == if Bit(w, u) then Flip(w, u) else w
    ensures Fits(v, n)
  {
    forall k: Position | Bit(v, k)
      ensures k as int < n
    {
      FlipBit(w, u, k);
      PositionInjective(u, k);
    }
  }

  lemma FitsNothing(w: bv64)
    requires Fits(w, 0)
    ensures w == 0
  {
    forall k: Position
      ensures k !in Ones(w)
    {
    }
    assert Ones(w) == {};
    OnesEmpty(w);
  }

  /** There are at most 2^n words whose set bits are below n. */
  lemma {:induction false} WordCount(t: set<bv64>, n: nat)
    requires n < 64 && forall w :: w in t ==> Fits(w, n)
    ensures |t| <= Pow2(n)
    decreases n
  {
    if n == 0 {
      forall w | w in t
        ensures w in {0}
      {
        FitsNothing(w);
      }
      SubsetSize(t, {0});
    } else {
      var u := PositionOf(n - 1);
      var clear := set w | w in t && !Bit(w, u);
      var marked := t - clear;
      forall w | w in clear
        ensures Fits(w, n - 1)
      {
        FlipFits(w, w, n - 1, u);
      }
      forall w | w in Flipped(marked, u)
        ensures Fits(w, n - 1)
      {
        var v :| v in marked && Flip(v, u) == w;
        FlipFits(v, w, n - 1, u);
      }
      WordCount(clear, n - 1);
      WordCount(Flipped(marked, u), n - 1);
      FlippedSize(marked, u);
      assert t == clear + marked;
    }
  }

  lemma TopClear(k: Position)
    ensures k != 63 ==> k as int < 63
  {
    PositionInjective(k, 63);
  }

  /** Fingerprints pairwise more than 3 apart number at most 2^57. */
  lemma PackingBound(s: set<bv64>)
    requires Apart(s)
    ensures |s| <= Pow2(57)
  {
    forall w | w in Covered(s)
      ensures Fits(w, 63)
    {
      var c, i :| c in s && i in AllPositions() && Point(c, i) == w;
      forall k: Position | Bit(w, k)
        ensures k as int < 63
      {
        PointBit(c, i, k);
        TopClear(k);
      }
    }
    WordCount(Covered(s), 63);
    CoveredSize(s);
    assert Pow2(63) == 64 * Pow2(57);
  }
}
