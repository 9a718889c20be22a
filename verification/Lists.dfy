/** Small facts about sequences and their multisets. */
module Lists {

  function RemoveAt<T>(s: seq<T>, i: nat): (r: seq<T>)
    requires i < |s|
    ensures |r| == |s| - 1
  {
    s[..i] + s[i + 1..]
  }

  lemma SplitAt<T>(s: seq<T>, i: nat)
    requires i < |s|
    ensures s == s[..i] + [s[i]] + s[i + 1..]
  {
  }

  lemma RemoveAtMultiset<T>(s: seq<T>, i: nat)
    requires i < |s|
    ensures multiset(s) == multiset(RemoveAt(s, i)) + multiset{s[i]}
    ensures multiset(RemoveAt(s, i)) == multiset(s) - multiset{s[i]}
  {
    SplitAt(s, i);
  }

  ghost predicate Distinct<T>(s: seq<T>) {
    forall i, j :: 0 <= i < j < |s| ==> s[i] != s[j]
  }

  ghost function ToSet<T(!new)>(s: seq<T>): (r: set<T>)
    ensures forall x :: x in r <==> x in s
  {
    set x | x in s
  }

  lemma {:induction false} DistinctSize<T(!new)>(s: seq<T>)
    requires Distinct(s)
    ensures |ToSet(s)| == |s|
  {
    if s == [] {
    } else {
      var n := |s| - 1;
      DistinctSize(s[..n]);
      assert s == s[..n] + [s[n]];
      assert ToSet(s) == ToSet(s[..n]) + {s[n]};
    }
  }

  /** The total weight of a list; with weights 0 and 1 it counts. */
  function Sum<T>(s: seq<T>, f: T -> nat): nat {
    if s == [] then 0 else Sum(s[..|s| - 1], f) + f(s[|s| - 1])
  }

  lemma SumAppend<T>(s: seq<T>, x: T, f: T -> nat)
    ensures Sum(s + [x], f) == Sum(s, f) + f(x)
  {
    assert (s + [x])[..|s|] == s;
  }

  lemma SumOne<T>(x: T, f: T -> nat)
    ensures Sum([x], f) == f(x)
  {
    assert [x][..0] == [];
  }

  lemma {:induction false} SumConcat<T>(a: seq<T>, b: seq<T>, f: T -> nat)
    ensures Sum(a + b, f) == Sum(a, f) + Sum(b, f)
  {
    if b == [] {
      assert a + b == a;
    } else {
      var n := |b| - 1;
      assert (a + b)[..|a| + n] == a + b[..n];
      SumConcat(a, b[..n], f);
    }
  }

  lemma SumCons<T>(x: T, s: seq<T>, f: T -> nat)
    ensures Sum([x] + s, f) == f(x) + Sum(s, f)
  {
    SumConcat([x], s, f);
    SumOne(x, f);
  }

  lemma SumRemoveAt<T>(s: seq<T>, i: nat, f: T -> nat)
    requires i < |s|
    ensures Sum(s, f) == Sum(RemoveAt(s, i), f) + f(s[i])
  {
    SplitAt(s, i);
    SumConcat(s[..i] + [s[i]], s[i + 1..], f);
    SumAppend(s[..i], s[i], f);
    SumConcat(s[..i], s[i + 1..], f);
  }

  lemma SumUpdate<T>(s: seq<T>, i: nat, x: T, f: T -> nat)
    requires i < |s| && f(x) == f(s[i])
    ensures Sum(s[i := x], f) == Sum(s, f)
  {
    SumRemoveAt(s, i, f);
    SumRemoveAt(s[i := x], i, f);
    assert RemoveAt(s[i := x], i) == RemoveAt(s, i);
  }

  lemma {:induction false} SumBound<T>(s: seq<T>, f: T -> nat, g: T -> nat, k: nat)
    requires forall x :: x in s ==> f(x) <= k * g(x)
    ensures Sum(s, f) <= k * Sum(s, g)
  {
    if s == [] {
    } else {
      var n := |s| - 1;
      assert s[n] in s && forall x :: x in s[..n] ==> x in s;
      SumBound(s[..n], f, g, k);
      assert k * (Sum(s[..n], g) + g(s[n])) == k * Sum(s[..n], g) + k * g(s[n]);
    }
  }

  lemma PermutationRest<T>(a: seq<T>, b: seq<T>, j: nat)
    requires a != [] && multiset(a) == multiset(b) && j < |b| && b[j] == a[|a| - 1]
    ensures multiset(a[..|a| - 1]) == multiset(RemoveAt(b, j))
  {
    RemoveAtMultiset(b, j);
    RemoveAtMultiset(a, |a| - 1);
    assert RemoveAt(a, |a| - 1) == a[..|a| - 1];
  }

  lemma {:induction false} SumPermutation<T>(a: seq<T>, b: seq<T>, f: T -> nat)
    requires multiset(a) == multiset(b)
    ensures Sum(a, f) == Sum(b, f)
  {
    if a == [] {
      assert |multiset(b)| == 0;
    } else {
      assert a[|a| - 1] in multiset(b);
      var j :| 0 <= j < |b| && b[j] == a[|a| - 1];
      PermutationRest(a, b, j);
      SumPermutation(a[..|a| - 1], RemoveAt(b, j), f);
      SumRemoveAt(b, j, f);
    }
  }
}
