/** Small facts about the sizes of finite sets. */
module Sets {

  ghost function AnyOf<T>(s: set<T>): (x: T)
    requires s != {}
    ensures x in s
  {
    var x :| x in s; x
  }

  lemma SubsetSize<T>(a: set<T>, b: set<T>)
    requires a <= b
    ensures |a| <= |b|
  {
    assert b == a + (b - a);
  }

  function Image<X(!new), Y>(f: X -> Y, s: set<X>): set<Y> {
    set x | x in s :: f(x)
  }

  ghost predicate InjectiveOn<X(!new), Y>(f: X -> Y, s: set<X>) {
    forall x, y :: x in s && y in s && f(x) == f(y) ==> x == y
  }

  lemma {:induction false} ImageSize<X(!new), Y>(f: X -> Y, s: set<X>)
    requires InjectiveOn(f, s)
    ensures |Image(f, s)| == |s|
  {
    if s == {} {
    } else {
      var x := AnyOf(s);
      ImageSize(f, s - {x});
      assert Image(f, s) == Image(f, s - {x}) + {f(x)};
    }
  }

  /** The total of f over a set. */
  ghost function SumOver<T(!new)>(s: set<T>, f: T -> nat): nat {
    if s == {} then 0
    else
      var x := AnyOf(s);
      f(x) + SumOver(s - {x}, f)
  }

  lemma {:induction false} SumOverSplit<T(!new)>(s: set<T>, f: T -> nat, x: T)
    requires x in s
    ensures SumOver(s, f) == f(x) + SumOver(s - {x}, f)
  {
    var y := AnyOf(s);
    if x != y {
      SumOverSplit(s - {y}, f, x);
      SumOverSplit(s - {x}, f, y);
      assert s - {y} - {x} == s - {x} - {y};
    }
  }

  lemma {:induction false} SumOverZero<T(!new)>(s: set<T>, f: T -> nat)
    requires forall x :: x in s ==> f(x) == 0
    ensures SumOver(s, f) == 0
  {
    if s == {} {
    } else {
      SumOverZero(s - {AnyOf(s)}, f);
    }
  }

  lemma {:induction false} SumOverEqual<T(!new)>(s: set<T>, f: T -> nat, g: T -> nat)
    requires forall x :: x in s ==> f(x) == g(x)
    ensures SumOver(s, f) == SumOver(s, g)
  {
    if s == {} {
    } else {
      SumOverEqual(s - {AnyOf(s)}, f, g);
    }
  }

  lemma SumOverBump<T(!new)>(s: set<T>, f: T -> nat, g: T -> nat, at: T)
    requires at in s && forall x :: x in s ==> f(x) == g(x) + if x == at then 1 else 0
    ensures SumOver(s, f) == SumOver(s, g) + 1
  {
    SumOverSplit(s, f, at);
    SumOverSplit(s, g, at);
    SumOverEqual(s - {at}, f, g);
  }
}
