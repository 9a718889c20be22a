/** What a pass does to a path, character by character. */
module PathText {
  import opened Text
  import opened Normalizer

  // ----- upper and lower case -----

  /** The same path but for the case of letters. */
  predicate SameButCase(p: string, q: string) {
    && |p| == |q|
    && forall i :: 0 <= i < |p| ==>
         || p[i] == q[i]
         || ('A' <= p[i] <= 'Z' && q[i] as int == p[i] as int + 32)
         || ('A' <= q[i] <= 'Z' && p[i] as int == q[i] as int + 32)
  }

  /** No capital letter is left. */
  lemma NoCapitals(p: Path)
    ensures forall i :: 0 <= i < |Pass(p)| ==> !('A' <= Pass(p)[i] <= 'Z')
  {
    if p == "" {
      PassIsRooted(p);
    } else {
      var segs := Segments(p);
      SplitParts(p[1..]);
      PassOnSegments(p);
      PassShape(segs);
      LowerOfDir(PassSegments(segs));
      NothingToLower(Pass(p));
    }
  }

  lemma NothingToLower(p: string)
    requires Lower(p) == p
    ensures forall i :: 0 <= i < |p| ==> !('A' <= p[i] <= 'Z')
  {
    forall i | 0 <= i < |p|
      ensures LowerChar(p[i]) == p[i]
    {
      assert Lower(p)[i] == LowerChar(p[i]);
    }
  }

  lemma LowerAlike(p: string, q: string)
    requires SameButCase(p, q)
    ensures Lower(p) == Lower(q)
  {
  }

  lemma {:induction false} SplitLower(s: string)
    ensures Split(Lower(s), '/') == LowerAll(Split(s, '/'))
  {
    if s == "" {
      assert LowerAll([""]) == [""];
    } else {
      SplitLower(s[1..]);
      assert Lower(s)[1..] == Lower(s[1..]);
      LowerGrow(s[0], Split(s[1..], '/'));
    }
  }

  lemma LowerGrow(c: char, rest: seq<string>)
    requires rest != []
    ensures LowerAll([""] + rest) == [""] + LowerAll(rest)
    ensures LowerAll([[c] + rest[0]] + rest[1..]) == [[LowerChar(c)] + Lower(rest[0])] + LowerAll(rest)[1..]
  {
    assert Lower("") == "";
    LowerAllCons("", rest);
    assert Lower([c] + rest[0]) == [LowerChar(c)] + Lower(rest[0]);
    LowerAllCons([c] + rest[0], rest[1..]);
    assert LowerAll(rest[1..]) == LowerAll(rest)[1..];
  }

  lemma LowerAllCons(x: string, rest: seq<string>)
    ensures LowerAll([x] + rest) == [Lower(x)] + LowerAll(rest)
  {
  }

  lemma LowerSpecial(x: string)
    ensures Lower(x) == "" <==> x == ""
    ensures Lower(x) == "." <==> x == "."
    ensures Lower(x) == ".." <==> x == ".."
  {
    assert |Lower(x)| == |x| && forall i :: 0 <= i < |x| ==> (Lower(x)[i] == '.' <==> x[i] == '.');
  }

  lemma {:induction false} ReduceLower(segs: seq<string>)
    ensures Reduce(LowerAll(segs)) == LowerAll(Reduce(segs))
  {
    if segs == [] {
    } else {
      var front, last := segs[..|segs| - 1], segs[|segs| - 1];
      ReduceLower(front);
      LowerSpecial(last);
      assert LowerAll(segs)[..|segs| - 1] == LowerAll(front);
      assert LowerAll(Reduce(front) + [last]) == LowerAll(Reduce(front)) + [Lower(last)];
    }
  }

  lemma LocaleLower(segs: seq<string>)
    ensures LocaleFirst(LowerAll(segs)) <==> LocaleFirst(segs)
  {
    if |segs| >= 2 {
      var x := segs[0];
      assert |Lower(x)| == |x| && forall i :: 0 <= i < |x| ==> Lower(x)[i] == LowerChar(x[i]);
      assert forall c :: Letter(LowerChar(c)) == Letter(c) && (LowerChar(c) == '-' <==> c == '-');
    }
  }

  lemma LowerTwice(segs: seq<string>)
    ensures LowerAll(LowerAll(segs)) == LowerAll(segs)
  {
    forall i | 0 <= i < |segs|
      ensures Lower(Lower(segs[i])) == Lower(segs[i])
    {
      assert forall j :: 0 <= j < |segs[i]| ==> LowerChar(LowerChar(segs[i][j])) == LowerChar(segs[i][j]);
    }
  }

  lemma DocsLower(kept: seq<string>)
    requires kept != []
    ensures DocsSegments(LowerAll(kept)) == DocsSegments(kept)
  {
    LocaleLower(kept);
    var k := if LocaleFirst(kept) then kept[1..] else kept;
    assert LowerAll(kept)[1..] == LowerAll(kept[1..]);
    LowerTwice(k);
  }

  lemma PassOfLower(p: string)
    requires Rooted(p)
    ensures Rooted(Lower(p)) && Pass(Lower(p)) == Pass(p)
  {
    assert Lower(p)[0] == '/' && Lower(p)[1..] == Lower(p[1..]);
    SplitLower(p[1..]);
    ReduceLower(Segments(p));
    if Reduce(Segments(p)) != [] { DocsLower(Reduce(Segments(p))); }
    PassOnSegments(p);
    PassOnSegments(Lower(p));
  }

  /** Two spellings of a path that differ only in case are normalised alike. */
  lemma CaseDoesNotMatter(p: Path, q: Path)
    requires SameButCase(p, q)
    ensures Pass(p) == Pass(q)
  {
    LowerAlike(p, q);
    if p != "" {
      PassOfLower(p);
      PassOfLower(q);
    }
  }

  // ----- locales -----

  /** Two letters, a hyphen and two letters between the first two slashes. */
  predicate LocaleShaped(p: string) {
    && |p| >= 7 && p[0] == '/' && p[3] == '-' && p[6] == '/'
    && forall i :: i in {1, 2, 4, 5} ==> 'a' <= p[i] <= 'z' || 'A' <= p[i] <= 'Z'
  }

  lemma LocaleOfPath(p: string)
    requires Rooted(p)
    ensures LocaleFirst(Segments(p)) <==> LocaleShaped(p)
  {
    SplitParts(p[1..]);
    LocaleOfDir(Segments(p));
    assert HasLocale(p) <==> LocaleShaped(p) by {
      if |p| >= 7 { assert 1 in {1, 2, 4, 5} && 2 in {1, 2, 4, 5} && 4 in {1, 2, 4, 5} && 5 in {1, 2, 4, 5}; }
    }
  }

  /** The segments of a clean path that is not the root. */
  lemma CleanSegments(p: string)
    requires Rooted(p) && Clean(p) == p && p != "/"
    ensures var segs := Segments(p);
            Reduce(segs) == segs && segs != [] && AllProper(segs) && Dir(segs) == p
  {
    SplitParts(p[1..]);
    ReduceProper(Segments(p));
    SegmentsOfDir(Reduce(Segments(p)));
  }

  /** The locale of a clean path is dropped, one of them. */
  lemma LocaleDropped(p: string)
    requires Rooted(p) && Clean(p) == p && LocaleShaped(p) && !LocaleShaped(p[6..])
    ensures Rooted(p[6..]) && Pass(p) == Pass(p[6..])
  {
    var segs, rest := Segments(p), p[6..];
    CleanSegments(p);
    LocaleOfPath(p);
    assert rest == Dir(segs[1..]) by {
      assert p == "/" + segs[0] + Dir(segs[1..]);
    }
    SegmentsOfDir(segs[1..]);
    ReduceKeeps(segs[1..]);
    LocaleOfPath(rest);
    PassOnSegments(p);
    PassOnSegments(rest);
  }

  // ----- page names and slashes -----

  predicate EndsWith(s: string, suffix: string) {
    |s| >= |suffix| && s[|s| - |suffix|..] == suffix
  }

  /** A name without the page name at its end. */
  function WithoutPage(x: string): string {
    if EndsWith(x, "index.html") then x[..|x| - 10]
    else if EndsWith(x, "index.htm") then x[..|x| - 9]
    else if EndsWith(x, "index.md") then x[..|x| - 8]
    else x
  }

  lemma CutIsWithoutPage(x: string)
    ensures Cut(x) == WithoutPage(x)
  {
    var last, two := ["index.md"], ["index.htm", "index.md"];
    assert last[1..] == [] && two[1..] == last && INDEX_NAMES[1..] == two;
    assert CutIndex(x, last) == if EndsWith(x, "index.md") then x[..|x| - 8] else x;
    assert CutIndex(x, two) == if EndsWith(x, "index.htm") then x[..|x| - 9] else CutIndex(x, last);
  }

  /** A path without capitals is not changed by lowering. */
  lemma AlreadyLow(p: string)
    requires forall i :: 0 <= i < |p| ==> !('A' <= p[i] <= 'Z')
    ensures Lower(p) == p
  {
  }

  lemma LowSegments(segs: seq<string>)
    requires Lower(Dir(segs)) == Dir(segs) && segs != [] && AllNoSlash(segs)
    ensures LowerAll(segs) == segs
  {
    LowerOfDir(segs);
    forall i | 0 <= i < |segs|
      ensures NoSlash(Lower(segs[i]))
    {
      assert forall j :: 0 <= j < |segs[i]| ==> Lower(segs[i])[j] == LowerChar(segs[i][j]);
    }
    SegmentsOfDir(segs);
    SegmentsOfDir(LowerAll(segs));
  }

  /** There is only one way to split a path at its last slash. */
  lemma LastSlash(d: string, x: string, front: string, last: string)
    requires d + "/" + x == front + "/" + last && NoSlash(x) && NoSlash(last)
    ensures x == last && d == front
  {
    AfterSlash(d, x);
    AfterSlash(front, last);
    assert (d + "/" + x)[..|d|] == d && (front + "/" + last)[..|front|] == front;
  }

  /**
   * A clean path without capitals and locale: the page name at its end goes, and what is left gets a slash
   * at its end exactly if its last name is not empty and has no dot.
   */
  lemma PageAndSlash(d: string, x: string)
    requires var p := d + "/" + x;
             && Rooted(p) && Clean(p) == p && !LocaleShaped(p) && x != "" && NoSlash(x)
             && forall i :: 0 <= i < |p| ==> !('A' <= p[i] <= 'Z')
    ensures var y := WithoutPage(x);
            Pass(d + "/" + x) == d + "/" + y + if y == "" || '.' in y then "" else "/"
  {
    var p := d + "/" + x;
    var segs := Segments(p);
    assert p[|p| - 1] == x[|x| - 1];
    CleanSegments(p);
    LocaleOfPath(p);
    AlreadyLow(p);
    LowSegments(segs);
    InitLast(segs);
    DirLast(Init(segs), Last(segs));
    LastSlash(d, x, Dir(Init(segs)), Last(segs));
    PassOnSegments(p);
    CutIsWithoutPage(x);
    CutSpelled(Init(segs), x);
  }

  lemma CutSpelled(front: seq<string>, x: string)
    ensures var y := Cut(x);
            Dir(CutLast(front + [x])) == Dir(front) + "/" + y + if y == "" || '.' in y then "" else "/"
  {
    var y := Cut(x);
    DirLast(front, y);
    if y != "" && '.' !in y {
      DirLast(front + [y], "");
      assert front + [y] + [""] == front + [y, ""];
    }
  }

  // ----- both rules on a URL -----

  /** The base rule and the docs rule in a row are one pass, and leave no capital letter. */
  method RunPipeline(u: Url)
    requires u.Path == "" || Rooted(u.Path)
    modifies u
    ensures u.Path == Pass(old(u.Path)) && u.RawQuery == ""
    ensures forall i :: 0 <= i < |u.Path| ==> !('A' <= u.Path[i] <= 'Z')
    ensures forall q: Path :: SameButCase(old(u.Path), q) ==> u.Path == Pass(q)
  {
    CleanPath(u);
    NormalizeDocs(u);
    forall q: Path | SameButCase(old(u.Path), q)
      ensures u.Path == Pass(q)
    {
      CaseDoesNotMatter(old(u.Path), q);
    }
  }
}
