/** Path normalisation of documentation URLs: path cleaning followed by the docs rules, on rooted ASCII paths. */
module Normalizer {
  import opened Text

  // ----- paths as lists of segments -----

  predicate NoSlash(s: string) {
    forall i :: 0 <= i < |s| ==> s[i] != '/'
  }

  predicate AllNoSlash(segs: seq<string>) {
    forall i :: 0 <= i < |segs| ==> NoSlash(segs[i])
  }

  /** Every segment with a slash in front. */
  function Dir(segs: seq<string>): string {
    if segs == [] then "" else "/" + segs[0] + Dir(segs[1..])
  }

  lemma DirCons(first: string, rest: seq<string>)
    ensures Dir([first] + rest) == "/" + first + Dir(rest)
  {
    assert ([first] + rest)[1..] == rest;
  }

  predicate Rooted(p: string) {
    p != "" && p[0] == '/'
  }

  function Segments(p: string): seq<string>
    requires Rooted(p)
  {
    Split(p[1..], '/')
  }

  lemma DirGrow(c: char, rest: seq<string>, t: string)
    requires rest != [] && Dir(rest) == "/" + t
    ensures Dir([[c] + rest[0]] + rest[1..]) == "/" + ([c] + t)
  {
    DirCons([c] + rest[0], rest[1..]);
    Regroup(c, rest[0], Dir(rest[1..]), t);
  }

  lemma Regroup(c: char, a: string, tail: string, t: string)
    requires "/" + a + tail == "/" + t
    ensures "/" + ([c] + a) + tail == "/" + ([c] + t)
  {
    assert ("/" + a + tail)[1..] == a + tail && ("/" + t)[1..] == t;
    assert "/" + ([c] + a) + tail == "/" + ([c] + (a + tail));
  }

  lemma {:induction false} SplitParts(s: string)
    ensures AllNoSlash(Split(s, '/')) && Dir(Split(s, '/')) == "/" + s
  {
    if s == "" {
    } else {
      SplitParts(s[1..]);
      var rest := Split(s[1..], '/');
      assert [s[0]] + s[1..] == s;
      if s[0] == '/' {
        DirCons("", rest);
      } else {
        DirGrow(s[0], rest, s[1..]);
      }
    }
  }

  lemma {:induction false} SplitFirst(a: string, rest: string)
    requires NoSlash(a)
    ensures Split(a, '/') == [a]
    ensures Split(a + "/" + rest, '/') == [a] + Split(rest, '/')
  {
    if a == "" {
      assert (a + "/" + rest)[1..] == rest;
    } else {
      assert (a + "/" + rest)[1..] == a[1..] + "/" + rest;
      SplitFirst(a[1..], rest);
      assert [a[0]] + a[1..] == a;
    }
  }

  lemma DirTail(segs: seq<string>)
    requires |segs| >= 2
    ensures Rooted(Dir(segs[1..])) && Dir(segs)[1..] == segs[0] + "/" + Dir(segs[1..])[1..]
  {
    DirCons(segs[0], segs[1..]);
    assert segs == [segs[0]] + segs[1..];
    DropSlash(segs[0], Dir(segs[1..]));
  }

  lemma DropSlash(a: string, d: string)
    requires Rooted(d)
    ensures ("/" + a + d)[1..] == a + "/" + d[1..]
  {
    assert d == "/" + d[1..];
  }

  lemma {:induction false} SegmentsOfDir(segs: seq<string>)
    requires segs != [] && AllNoSlash(segs)
    ensures Rooted(Dir(segs)) && Segments(Dir(segs)) == segs
  {
    var rest := segs[1..];
    if rest == [] {
      assert Dir(segs)[1..] == segs[0];
      SplitFirst(segs[0], "");
    } else {
      SegmentsOfDir(rest);
      DirTail(segs);
      SplitFirst(segs[0], Dir(rest)[1..]);
    }
  }

  lemma {:induction false} DirConcat(a: seq<string>, b: seq<string>)
    ensures Dir(a + b) == Dir(a) + Dir(b)
  {
    if a == [] {
      assert a + b == b;
    } else {
      assert (a + b)[1..] == a[1..] + b;
      DirConcat(a[1..], b);
    }
  }

  lemma DirLast(segs: seq<string>, last: string)
    ensures Dir(segs + [last]) == Dir(segs) + "/" + last
  {
    DirConcat(segs, [last]);
  }

  // ----- path.Clean -----

  /** Drop empty segments and dots; a double dot drops the segment before it. */
  function Reduce(segs: seq<string>): seq<string> {
    if segs == [] then []
    else
      var stack, last := Reduce(segs[..|segs| - 1]), segs[|segs| - 1];
      if last == "" || last == "." then stack
      else if last == ".." then if stack == [] then [] else stack[..|stack| - 1]
      else stack + [last]
  }

  function Clean(p: string): string
    requires Rooted(p)
  {
    var kept := Reduce(Segments(p));
    if kept == [] then "/" else Dir(kept)
  }

  predicate Proper(s: string) {
    s != "" && s != "." && s != ".." && NoSlash(s)
  }

  predicate AllProper(segs: seq<string>) {
    forall i :: 0 <= i < |segs| ==> Proper(segs[i])
  }

  lemma {:induction false} ReduceProper(segs: seq<string>)
    requires AllNoSlash(segs)
    ensures AllProper(Reduce(segs))
  {
    if segs == [] {
    } else {
      ReduceProper(segs[..|segs| - 1]);
    }
  }

  lemma {:induction false} ReduceKeeps(segs: seq<string>)
    requires AllProper(segs)
    ensures Reduce(segs) == segs
  {
    if segs == [] {
    } else {
      ReduceKeeps(segs[..|segs| - 1]);
      assert segs == segs[..|segs| - 1] + [segs[|segs| - 1]];
    }
  }

  /** Walking a path is walking one part after the other. */
  lemma {:induction false} ReduceCompose(a: seq<string>, b: seq<string>)
    ensures Reduce(a + b) == Reduce(Reduce(a) + b)
  {
    if b == [] {
      assert a + b == a && Reduce(a) + b == Reduce(a);
      ReduceTwice(a);
    } else {
      var front, last := b[..|b| - 1], b[|b| - 1];
      ReduceCompose(a, front);
      assert (a + b)[..|a + b| - 1] == a + front;
      assert (Reduce(a) + b)[..|Reduce(a) + b| - 1] == Reduce(a) + front;
    }
  }

  lemma {:induction false} ReduceTwice(a: seq<string>)
    ensures Reduce(Reduce(a)) == Reduce(a)
  {
    if a == [] {
    } else {
      var stack, last := Reduce(a[..|a| - 1]), a[|a| - 1];
      ReduceTwice(a[..|a| - 1]);
      if last == ".." {
        ReducePrefix(stack, if stack == [] then 0 else |stack| - 1);
      } else if last != "" && last != "." {
        assert (stack + [last])[..|stack|] == stack;
      }
    }
  }

  lemma {:induction false} ReducePrefix(stack: seq<string>, n: nat)
    requires Reduce(stack) == stack && n <= |stack|
    ensures Reduce(stack[..n]) == stack[..n]
  {
    if n == |stack| {
      assert stack[..n] == stack;
    } else {
      var front := stack[..|stack| - 1];
      ReduceLength(front);
      assert Reduce(front) == front;
      ReducePrefix(front, n);
      assert front[..n] == stack[..n];
    }
  }

  lemma {:induction false} ReduceLength(segs: seq<string>)
    ensures |Reduce(segs)| <= |segs|
  {
    if segs == [] {
    } else {
      ReduceLength(segs[..|segs| - 1]);
    }
  }

  /** Empty names and single dots lead nowhere, a double dot one up, and every other name one down. */
  lemma OneSegment(place: seq<string>, x: string)
    requires AllProper(place)
    ensures Reduce(place + [x]) ==
              if x == "" || x == "." then place
              else if x == ".." then if place == [] then [] else place[..|place| - 1]
              else place + [x]
  {
    ReduceKeeps(place);
    assert (place + [x])[..|place|] == place;
  }

  lemma DirSize(a: seq<string>, x: string)
    ensures |Dir(a + [x])| == |Dir(a)| + 1 + |x|
  {
    DirLast(a, x);
  }

  /** Where a path leads, seen from the root. */
  function Place(p: string): seq<string>
    requires Rooted(p)
  {
    Reduce(Segments(p))
  }

  lemma {:induction false} ReduceShortens(segs: seq<string>)
    ensures |Dir(Reduce(segs))| <= |Dir(segs)|
  {
    if segs == [] {
    } else {
      var front, last := segs[..|segs| - 1], segs[|segs| - 1];
      var stack := Reduce(front);
      ReduceShortens(front);
      assert segs == front + [last];
      DirSize(front, last);
      DirSize(stack, last);
      if stack != [] {
        assert stack == stack[..|stack| - 1] + [stack[|stack| - 1]];
        DirSize(stack[..|stack| - 1], stack[|stack| - 1]);
      }
    }
  }

  /** Cleaning leads to the same place, and no shorter path does; cleaning again changes nothing. */
  lemma CleanIsShortest(p: string)
    requires Rooted(p)
    ensures Rooted(Clean(p)) && Place(Clean(p)) == Place(p) && Clean(Clean(p)) == Clean(p)
    ensures forall q: string :: Rooted(q) && Place(q) == Place(p) ==> |Clean(p)| <= |q|
  {
    var kept := Place(p);
    SplitParts(p[1..]);
    ReduceProper(Segments(p));
    if kept == [] {
      assert Segments("/") == [""] && [""][..0] == [];
    } else {
      SegmentsOfDir(kept);
      ReduceKeeps(kept);
    }
    forall q: string | Rooted(q) && Place(q) == kept
      ensures |Clean(p)| <= |q|
    {
      SplitParts(q[1..]);
      ReduceShortens(Segments(q));
    }
  }

  // ----- the docs rules -----

  predicate Letter(c: char) {
    'a' <= c <= 'z' || 'A' <= c <= 'Z'
  }

  /** A locale such as /en-us/ at the front. */
  predicate HasLocale(p: string) {
    |p| >= 7 && p[0] == '/' && Letter(p[1]) && Letter(p[2]) && p[3] == '-' && Letter(p[4]) && Letter(p[5])
      && p[6] == '/'
  }

  function StripLocale(p: string): string {
    if HasLocale(p) then "/" + p[7..] else p
  }

  function LowerChar(c: char): char {
    if 'A' <= c <= 'Z' then (c as int + 32) as char else c
  }

  function Lower(s: string): string {
    seq(|s|, i requires 0 <= i < |s| => LowerChar(s[i]))
  }

  const INDEX_NAMES: seq<string> := ["index.html", "index.htm", "index.md"]

  predicate HasSuffix(s: string, suffix: string) {
    |s| >= |suffix| && s[|s| - |suffix|..] == suffix
  }

  /** Cut the first of the index names that is a suffix. */
  function CutIndex(p: string, names: seq<string>): string {
    if names == [] then p
    else if HasSuffix(p, names[0]) then p[..|p| - |names[0]|]
    else CutIndex(p, names[1..])
  }

  function AfterLastSlash(s: string): string {
    if s == "" then "" else if s[|s| - 1] == '/' then "" else AfterLastSlash(s[..|s| - 1]) + [s[|s| - 1]]
  }

  function TrimSlashes(s: string): string {
    if s != "" && s[|s| - 1] == '/' then TrimSlashes(s[..|s| - 1]) else s
  }

  /** path.Base */
  function Base(p: string): string {
    if p == "" then "."
    else
      var last := AfterLastSlash(TrimSlashes(p));
      if last == "" then "/" else last
  }

  /** Directories get a slash at the end. */
  function AddSlash(p: string): string {
    if !HasSuffix(p, "/") && '.' !in Base(p) then p + "/" else p
  }

  function DocsPath(p: string): string {
    AddSlash(CutIndex(Lower(StripLocale(p)), INDEX_NAMES))
  }

  /** One pass: the path part of the base rules, then the docs rules. */
  function Pass(p: string): string
    requires p == "" || Rooted(p)
  {
    DocsPath(if p == "" then p else Clean(p))
  }

  // ----- a pass seen on segments -----

  predicate IsLocale(s: string) {
    |s| == 5 && Letter(s[0]) && Letter(s[1]) && s[2] == '-' && Letter(s[3]) && Letter(s[4])
  }

  predicate LocaleFirst(segs: seq<string>) {
    |segs| >= 2 && IsLocale(segs[0])
  }

  function LowerAll(segs: seq<string>): seq<string> {
    seq(|segs|, i requires 0 <= i < |segs| => Lower(segs[i]))
  }

  function Last(segs: seq<string>): string
    requires segs != []
  {
    segs[|segs| - 1]
  }

  function Init(segs: seq<string>): seq<string>
    requires segs != []
  {
    segs[..|segs| - 1]
  }

  /** The page or directory name without an index name at its end. */
  function Cut(s: string): string {
    CutIndex(s, INDEX_NAMES)
  }

  function CutLast(segs: seq<string>): seq<string>
    requires segs != []
  {
    var x := Cut(Last(segs));
    Init(segs) + if x == "" || '.' in x then [x] else [x, ""]
  }

  function DocsSegments(kept: seq<string>): seq<string>
    requires kept != []
  {
    CutLast(LowerAll(if LocaleFirst(kept) then kept[1..] else kept))
  }

  function PassSegments(segs: seq<string>): seq<string> {
    var kept := Reduce(segs);
    if kept == [] then [""] else DocsSegments(kept)
  }

  lemma LocaleOfDir(segs: seq<string>)
    requires segs != [] && AllNoSlash(segs)
    ensures HasLocale(Dir(segs)) <==> LocaleFirst(segs)
    ensures StripLocale(Dir(segs)) == Dir(if LocaleFirst(segs) then segs[1..] else segs)
  {
    var first, p := segs[0], Dir(segs);
    var tail := Dir(segs[1..]);
    assert p == "/" + first + tail;
    assert tail == "" || tail[0] == '/';
    assert tail != "" <==> |segs| >= 2;
    assert forall i :: 0 <= i < |first| ==> p[i + 1] == first[i];
    assert p[1 + |first|..] == tail;
    if HasLocale(p) {
      assert |first| == 5;
    }
    if LocaleFirst(segs) {
      assert p[7..] == tail[1..];
    }
  }

  lemma LowerConcat(a: string, b: string)
    ensures Lower(a + b) == Lower(a) + Lower(b)
  {
  }

  lemma {:induction false} LowerOfDir(segs: seq<string>)
    ensures Lower(Dir(segs)) == Dir(LowerAll(segs))
  {
    if segs == [] {
    } else {
      var rest := segs[1..];
      LowerOfDir(rest);
      LowerConcat("/" + segs[0], Dir(rest));
      LowerConcat("/", segs[0]);
      assert LowerAll(segs) == [Lower(segs[0])] + LowerAll(rest);
      DirCons(Lower(segs[0]), LowerAll(rest));
    }
  }

  lemma LowerProper(segs: seq<string>)
    requires AllProper(segs)
    ensures AllProper(LowerAll(segs)) && LowerAll(LowerAll(segs)) == LowerAll(segs)
  {
    forall i | 0 <= i < |segs|
      ensures Proper(Lower(segs[i])) && Lower(Lower(segs[i])) == Lower(segs[i])
    {
      var s := segs[i];
      assert |Lower(s)| == |s| && forall j :: 0 <= j < |s| ==> Lower(s)[j] == LowerChar(s[j]);
      assert Lower(s)[0] == LowerChar(s[0]);
    }
  }

  lemma SuffixOfLast(front: string, x: string, name: string)
    requires NoSlash(name)
    ensures HasSuffix(front + "/" + x, name) <==> HasSuffix(x, name)
  {
    var p := front + "/" + x;
    assert p[|front|] == '/' && p[|front| + 1..] == x;
    if |x| >= |name| {
      assert p[|p| - |name|..] == x[|x| - |name|..];
    } else if |p| >= |name| {
      assert p[|p| - |name|..][|front| - (|p| - |name|)] == '/';
    }
  }

  lemma {:induction false} CutOfPath(front: string, x: string, names: seq<string>)
    requires AllNoSlash(names)
    ensures CutIndex(front + "/" + x, names) == front + "/" + CutIndex(x, names)
  {
    if names == [] {
    } else {
      SuffixOfLast(front, x, names[0]);
      CutOfPath(front, x, names[1..]);
    }
  }

  lemma {:induction false} AfterSlash(front: string, x: string)
    requires NoSlash(x)
    ensures AfterLastSlash(front + "/" + x) == x
  {
    var p := front + "/" + x;
    if x == "" {
      assert p[|p| - 1] == '/';
    } else {
      var y := x[..|x| - 1];
      assert p[..|p| - 1] == front + "/" + y;
      AfterSlash(front, y);
      assert x == y + [x[|x| - 1]];
    }
  }

  lemma BaseOfPath(front: string, x: string)
    requires NoSlash(x) && x != ""
    ensures Base(front + "/" + x) == x
  {
    var p := front + "/" + x;
    assert p[|p| - 1] == x[|x| - 1];
    AfterSlash(front, x);
  }

  lemma {:induction false} CutFacts(x: string, names: seq<string>)
    requires NoSlash(x)
    ensures NoSlash(CutIndex(x, names)) && CutIndex(x, names) <= x
    ensures CutIndex(x, names) != x ==> exists i :: 0 <= i < |names| && |CutIndex(x, names)| + |names[i]| == |x|
  {
    if names != [] && !HasSuffix(x, names[0]) {
      CutFacts(x, names[1..]);
      if CutIndex(x, names) != x {
        var i :| 0 <= i < |names[1..]| && |CutIndex(x, names)| + |names[1..][i]| == |x|;
        assert names[1..][i] == names[i + 1];
      }
    }
  }

  lemma CutShortens(x: string)
    requires NoSlash(x)
    ensures NoSlash(Cut(x)) && Cut(x) <= x && (Cut(x) == x || |Cut(x)| + 8 <= |x|)
  {
    CutFacts(x, INDEX_NAMES);
  }

  lemma CutOfLower(x: string)
    requires NoSlash(x) && Lower(x) == x
    ensures Lower(Cut(x)) == Cut(x)
  {
    CutShortens(x);
    forall i | 0 <= i < |Cut(x)|
      ensures LowerChar(Cut(x)[i]) == Cut(x)[i]
    {
      assert Cut(x)[i] == x[i] == Lower(x)[i];
    }
  }

  lemma CutLastOnPath(segs: seq<string>)
    requires segs != [] && AllNoSlash(segs)
    ensures AddSlash(CutIndex(Dir(segs), INDEX_NAMES)) == Dir(CutLast(segs))
  {
    var front, last := Init(segs), Last(segs);
    var x := Cut(last);
    assert Dir(segs) == Dir(front) + "/" + last by {
      DirLast(front, last);
      assert front + [last] == segs;
    }
    var p := Dir(front) + "/" + x;
    assert CutIndex(Dir(segs), INDEX_NAMES) == p by { CutOfPath(Dir(front), last, INDEX_NAMES); }
    assert p == Dir(front + [x]) by { DirLast(front, x); }
    CutShortens(last);
    SlashOnPath(Dir(front), x);
    if x != "" && '.' !in x {
      DirLast(front + [x], "");
      assert front + [x] + [""] == CutLast(segs);
    }
  }

  lemma SlashOnPath(front: string, x: string)
    requires NoSlash(x)
    ensures AddSlash(front + "/" + x) == if x == "" || '.' in x then front + "/" + x else front + "/" + x + "/"
  {
    var p := front + "/" + x;
    if x == "" {
      assert p[|p| - 1..] == "/";
    } else {
      BaseOfPath(front, x);
      assert p[|p| - 1..][0] == x[|x| - 1];
    }
  }

  /** The docs rules on a path do to its segments what DocsSegments says. */
  lemma DocsOnSegments(kept: seq<string>)
    requires kept != [] && AllProper(kept)
    ensures DocsPath(Dir(kept)) == Dir(DocsSegments(kept))
  {
    LocaleOfDir(kept);
    var k := if LocaleFirst(kept) then kept[1..] else kept;
    LowerOfDir(k);
    LowerProper(k);
    CutLastOnPath(LowerAll(k));
  }

  /** The string rewriting is exactly the rewriting of segments. */
  lemma PassOnSegments(p: string)
    requires Rooted(p)
    ensures Pass(p) == Dir(PassSegments(Segments(p)))
    ensures Segments(Pass(p)) == PassSegments(Segments(p))
  {
    var segs := Segments(p);
    SplitParts(p[1..]);
    ReduceProper(segs);
    PassShape(segs);
    if Reduce(segs) == [] {
      assert Lower("/") == "/";
      assert !HasSuffix("/", "index.html") && !HasSuffix("/", "index.htm") && !HasSuffix("/", "index.md");
      assert Dir([""]) == "/";
    } else {
      DocsOnSegments(Reduce(segs));
    }
    SegmentsOfDir(PassSegments(segs));
  }

  // ----- what a pass leaves -----

  /** Clean up to the last segment, lower case, and a last segment that is empty or has a dot in it. */
  predicate Shaped(segs: seq<string>) {
    && segs != []
    && AllProper(Init(segs)) && LowerAll(segs) == segs
    && NoSlash(Last(segs)) && (Last(segs) == "" || '.' in Last(segs))
  }

  lemma CutLastShape(segs: seq<string>)
    requires segs != [] && AllProper(segs) && LowerAll(segs) == segs
    ensures Shaped(CutLast(segs))
  {
    var x := Cut(Last(segs));
    assert Lower(Last(segs)) == LowerAll(segs)[|segs| - 1] == Last(segs);
    CutShortens(Last(segs));
    CutOfLower(Last(segs));
    var out := CutLast(segs);
    assert forall i :: 0 <= i < |segs| - 1 ==> out[i] == segs[i] && Lower(segs[i]) == LowerAll(segs)[i];
    assert forall i :: |segs| - 1 <= i < |out| ==> Lower(out[i]) == out[i];
    assert LowerAll(out) == out;
    if x == "" || '.' in x {
      assert Init(out) == Init(segs) && Last(out) == x;
    } else {
      assert Init(out) == Init(segs) + [x] && Last(out) == "";
    }
  }

  lemma DocsShape(kept: seq<string>)
    requires kept != [] && AllProper(kept)
    ensures Shaped(DocsSegments(kept))
  {
    var k := if LocaleFirst(kept) then kept[1..] else kept;
    LowerProper(k);
    CutLastShape(LowerAll(k));
  }

  lemma PassShape(segs: seq<string>)
    requires AllNoSlash(segs)
    ensures Shaped(PassSegments(segs)) && AllNoSlash(PassSegments(segs))
  {
    ReduceProper(segs);
    if Reduce(segs) == [] {
      assert LowerAll([""]) == [""];
    } else {
      DocsShape(Reduce(segs));
      var out := PassSegments(segs);
      assert forall i :: 0 <= i < |out| ==> out[i] == if i < |out| - 1 then Init(out)[i] else Last(out);
    }
  }

  // ----- every further pass changes nothing or shortens the path -----

  lemma InitLast(segs: seq<string>)
    requires segs != []
    ensures segs == Init(segs) + [Last(segs)]
  {
  }

  /** An index name at the end costs at least seven characters; without one only a slash can be added. */
  lemma CutLastSize(segs: seq<string>)
    requires segs != [] && AllProper(segs)
    ensures Cut(Last(segs)) == Last(segs) ==> CutLast(segs) == if '.' in Last(segs) then segs else segs + [""]
    ensures Cut(Last(segs)) != Last(segs) ==> |Dir(CutLast(segs))| + 7 <= |Dir(segs)|
  {
    var front, last := Init(segs), Last(segs);
    var x := Cut(last);
    CutShortens(last);
    InitLast(segs);
    DirSize(front, last);
    DirSize(front, x);
    DirSize(front + [x], "");
    assert front + [x] + [""] == front + [x, ""];
    assert segs + [""] == front + [last, ""];
  }

  /** What the docs rules do to a clean lower-case path. */
  lemma DocsSize(kept: seq<string>)
    requires kept != [] && AllProper(kept) && LowerAll(kept) == kept
    ensures LocaleFirst(kept) || Cut(Last(kept)) != Last(kept) ==> |Dir(DocsSegments(kept))| + 5 <= |Dir(kept)|
    ensures !LocaleFirst(kept) && Cut(Last(kept)) == Last(kept) ==>
              DocsSegments(kept) == if '.' in Last(kept) then kept else kept + [""]
  {
    CutLastSize(kept);
    if LocaleFirst(kept) {
      var rest := kept[1..];
      assert LowerAll(rest) == rest by {
        assert forall i :: 0 <= i < |rest| ==> Lower(rest[i]) == LowerAll(kept)[i + 1];
      }
      assert Dir(kept) == "/" + kept[0] + Dir(rest);
      CutLastSize(rest);
      DirSize(rest, "");
    }
  }

  /** Cleaning a shaped path drops its last segment, its last two, or nothing. */
  lemma ReduceShaped(segs: seq<string>)
    requires Shaped(segs)
    ensures Reduce(segs) ==
              var front, last := Init(segs), Last(segs);
              if last == "" || last == "." then front
              else if last == ".." then if front == [] then [] else Init(front)
              else segs
    ensures AllProper(Reduce(segs)) && LowerAll(Reduce(segs)) == Reduce(segs)
  {
    ReduceKeeps(Init(segs));
    var kept := Reduce(segs);
    assert kept == segs || kept <= Init(segs) by { InitLast(segs); }
    PrefixLower(segs, |kept|);
    assert kept == segs[..|kept|];
  }

  lemma PrefixLower(segs: seq<string>, k: nat)
    requires k <= |segs| && LowerAll(segs) == segs
    ensures LowerAll(segs[..k]) == segs[..k]
  {
    assert forall i :: 0 <= i < k ==> Lower(segs[i]) == LowerAll(segs)[i];
  }

  /** A settled list of segments: clean, lower case, no locale, no index name, a slash exactly on directories. */
  predicate Canonical(segs: seq<string>) {
    segs == [""] ||
    (segs != [] &&
     var dir := if Last(segs) == "" then Init(segs) else segs;
     && dir != [] && AllProper(dir) && LowerAll(dir) == dir
     && !LocaleFirst(dir) && Cut(Last(dir)) == Last(dir)
     && (Last(segs) == "" <==> '.' !in Last(dir)))
  }

  lemma CanonicalIsFixed(segs: seq<string>)
    requires Canonical(segs)
    ensures PassSegments(segs) == segs
  {
    if segs == [""] {
      assert [""][..0] == [];
    } else {
      var dir := if Last(segs) == "" then Init(segs) else segs;
      ReduceKeeps(dir);
      DocsSize(dir);
      InitLast(segs);
    }
  }

  lemma ShortensOrSettled(segs: seq<string>)
    requires Shaped(segs)
    ensures Canonical(segs) || |Dir(PassSegments(segs))| < |Dir(segs)|
  {
    var front, last, kept := Init(segs), Last(segs), Reduce(segs);
    ReduceShaped(segs);
    InitLast(segs);
    DirSize(front, last);
    if kept == [] {
      assert Dir([""]) == "/";
    } else {
      DocsSize(kept);
      DirSize(kept, "");
      if last == ".." {
        InitLast(front);
        DirSize(Init(front), Last(front));
      }
    }
  }

  /** The paths a pass leaves alone are exactly the canonical ones. */
  lemma FixedIffCanonical(p: string)
    requires Rooted(p)
    ensures Pass(p) == p <==> Canonical(Segments(p))
  {
    var segs := Segments(p);
    SplitParts(p[1..]);
    assert "/" + p[1..] == p;
    PassOnSegments(p);
    PassShape(segs);
    if Pass(p) == p {
      ShortensOrSettled(segs);
    } else if Canonical(segs) {
      CanonicalIsFixed(segs);
    }
  }

  lemma PassIsRooted(p: string)
    requires p == "" || Rooted(p)
    ensures if p == "" then Pass(p) == "" else Rooted(Pass(p))
  {
    if p == "" {
      assert Lower("") == "";
    } else {
      SplitParts(p[1..]);
      PassOnSegments(p);
      PassShape(Segments(p));
    }
  }

  /** After one pass, every further pass leaves the path alone or makes it strictly shorter. */
  lemma SecondPassSettlesOrShortens(p: string)
    requires p == "" || Rooted(p)
    ensures var once := Pass(p);
            (once == "" || Rooted(once)) && (Pass(once) == once || |Pass(once)| < |once|)
  {
    PassIsRooted(p);
    if p != "" {
      var once := Pass(p);
      SplitParts(p[1..]);
      PassOnSegments(p);
      PassShape(Segments(p));
      PassOnSegments(once);
      ShortensOrSettled(Segments(once));
      FixedIffCanonical(once);
    }
  }

  /** The path of a URL with a host. */
  type Path = p: string | p == "" || p[0] == '/'

  function Normalised(p: Path): (r: Path)
    ensures p != "" ==> Rooted(r)
  {
    PassIsRooted(p);
    Pass(p)
  }

  function Repeat(f: Path -> Path, p: Path, n: nat): Path
    decreases n
  {
    if n == 0 then p else Repeat(f, f(p), n - 1)
  }

  lemma {:induction false} FixedStays(f: Path -> Path, p: Path, n: nat)
    requires f(p) == p
    ensures Repeat(f, p, n) == p
    decreases n
  {
    if n > 0 { FixedStays(f, p, n - 1); }
  }

  lemma {:induction false} ShorteningSettles(f: Path -> Path, p: Path, n: nat)
    requires forall q: Path :: f(f(q)) == f(q) || |f(f(q))| < |f(q)|
    requires n >= |f(p)|
    ensures f(Repeat(f, p, n + 1)) == Repeat(f, p, n + 1)
    decreases n
  {
    assert Repeat(f, p, n + 1) == Repeat(f, f(p), n);
    if f(f(p)) == f(p) {
      FixedStays(f, f(p), n);
    } else {
      ShorteningSettles(f, f(p), n - 1);
    }
  }

  lemma {:induction false} RepeatKeeps(f: Path -> Path, p: Path, n: nat)
    requires p != "" && forall q: Path :: q != "" ==> f(q) != ""
    ensures Repeat(f, p, n) != ""
    decreases n
  {
    if n > 0 { RepeatKeeps(f, f(p), n - 1); }
  }

  predicate CanonicalPath(p: Path) {
    p != "" && Canonical(Segments(p))
  }

  /** What is known of one application is known of it wherever it stops. */
  lemma ShorteningConverges(f: Path -> Path, settled: Path -> bool, p: Path, n: nat)
    requires forall q: Path :: f(f(q)) == f(q) || |f(f(q))| < |f(q)|
    requires forall q: Path :: (q == "" ==> f(q) == "") && (q != "" ==> f(q) != "" && (f(q) == q <==> settled(q)))
    requires n > |f(p)|
    ensures var end := Repeat(f, p, n); f(end) == end && if p == "" then end == "" else settled(end)
  {
    ShorteningSettles(f, p, n - 1);
    if p == "" {
      FixedStays(f, p, n);
    } else {
      RepeatKeeps(f, p, n);
    }
  }

  lemma OneStep(q: Path)
    ensures Normalised(Normalised(q)) == Normalised(q) || |Normalised(Normalised(q))| < |Normalised(q)|
    ensures q == "" ==> Normalised(q) == ""
    ensures q != "" ==> Normalised(q) != "" && (Normalised(q) == q <==> CanonicalPath(q))
  {
    SecondPassSettlesOrShortens(q);
    PassIsRooted(q);
    if q != "" { FixedIffCanonical(q); }
  }

  /** Normalising again and again ends in a canonical path, within as many passes more as the first result is long. */
  lemma NormalisationConverges(p: Path, n: nat)
    requires n > |Normalised(p)|
    ensures var end := Repeat(Normalised, p, n);
            Normalised(end) == end && if p == "" then end == "" else CanonicalPath(end)
  {
    forall q: Path { OneStep(q); }
    ShorteningConverges(Normalised, CanonicalPath, p, n);
  }

  // ----- when one pass is enough -----

  /** The clean lower-case segments the docs rules work on, the first locale gone. */
  function Stripped(p: string): seq<string>
    requires Rooted(p)
  {
    var kept := Reduce(Segments(p));
    LowerAll(if LocaleFirst(kept) then kept[1..] else kept)
  }

  /** No second locale, no second index name, no dots laid bare, no dotted directory left without a page. */
  predicate OneIsEnough(segs: seq<string>) {
    segs == [] ||
    (var x := Cut(Last(segs));
     var rest := if x == "" then Init(segs) else segs;
     && !LocaleFirst(rest)
     && x != "." && x != ".." && Cut(x) == x
     && (x == "" ==> rest == [] || '.' !in Last(rest)))
  }

  lemma NoDotNoIndex(x: string)
    requires '.' !in x
    ensures Cut(x) == x
  {
    CutOnlyDotted(x, INDEX_NAMES);
  }

  lemma {:induction false} CutOnlyDotted(x: string, names: seq<string>)
    requires '.' !in x && forall i :: 0 <= i < |names| ==> |names[i]| > 5 && names[i][5] == '.'
    ensures CutIndex(x, names) == x
  {
    if names == [] {
    } else {
      var at := |x| - |names[0]|;
      if at >= 0 {
        assert x[at..][5] == x[at + 5];
      }
      CutOnlyDotted(x, names[1..]);
    }
  }

  lemma CanonicalCutLast(segs: seq<string>)
    requires segs != [] && AllProper(segs) && LowerAll(segs) == segs
    ensures Canonical(CutLast(segs)) <==> OneIsEnough(segs)
  {
    var front, last, out := Init(segs), Last(segs), CutLast(segs);
    var x := Cut(last);
    CutShortens(last);
    CutLastShape(segs);
    InitLast(segs);
    if x == "" {
      assert Last(out) == "" && Init(out) == front;
      assert forall i :: 0 <= i < |front| ==> Lower(front[i]) == LowerAll(segs)[i];
      assert LowerAll(front) == front;
      if front != [] && '.' !in Last(front) { NoDotNoIndex(Last(front)); }
    } else if '.' in x {
      assert Last(out) == x;
      assert LocaleFirst(out) <==> LocaleFirst(segs);
    } else {
      NoDotNoIndex(x);
      assert Last(out) == "" && Init(out) == front + [x];
      assert LocaleFirst(front + [x]) <==> LocaleFirst(segs);
      assert LowerAll(front + [x]) == front + [x] by {
        assert forall i :: 0 <= i < |out| ==> Lower(out[i]) == LowerAll(out)[i];
      }
    }
  }

  /** One pass is idempotent exactly on the paths that OneIsEnough admits. */
  lemma IdempotentIff(p: string)
    requires Rooted(p)
    ensures Rooted(Pass(p))
    ensures Pass(Pass(p)) == Pass(p) <==> OneIsEnough(Stripped(p))
  {
    var segs := Segments(p);
    SplitParts(p[1..]);
    PassIsRooted(p);
    PassOnSegments(p);
    FixedIffCanonical(Pass(p));
    ReduceProper(segs);
    var kept := Reduce(segs);
    if kept != [] {
      LowerProper(if LocaleFirst(kept) then kept[1..] else kept);
      CanonicalCutLast(Stripped(p));
    }
  }

  lemma DottedDirectory()
    ensures PassSegments(["v1.2", "index.html"]) == ["v1.2", ""]
  {
    var a := ["v1.2", "index.html"];
    assert Reduce(a) == a by { ReduceKeeps(a); }
    assert LowerAll(a) == a by {
      assert Lower("v1.2") == "v1.2" && Lower("index.html") == "index.html";
    }
    assert Cut(Last(a)) == "" && Init(a) == ["v1.2"];
  }

  lemma DottedPage()
    ensures PassSegments(["v1.2", ""]) == ["v1.2"]
  {
    var b := ["v1.2"];
    assert LowerAll(b) == b by { assert Lower("v1.2") == "v1.2"; }
    assert CutLast(b) == b by {
      CutShortens("v1.2");
      assert "v1.2"[2] == '.';
    }
    assert Reduce(["v1.2", ""]) == b by {
      ReduceKeeps(b);
      assert ["v1.2", ""][..1] == b;
    }
  }

  /** It is not idempotent everywhere: cutting the page off lays bare a directory with a dot in it. */
  lemma OnePassIsNotEnough()
    ensures Pass("/v1.2/index.html") == "/v1.2/" && Pass("/v1.2/") == "/v1.2"
  {
    var a, b := ["v1.2", "index.html"], ["v1.2", ""];
    assert Dir(a) == "/v1.2/index.html" && Dir(b) == "/v1.2/" && Dir(["v1.2"]) == "/v1.2" by {
      DirCons("v1.2", ["index.html"]);
      DirCons("v1.2", [""]);
      DirCons("v1.2", []);
      DirCons("index.html", []);
      DirCons("", []);
    }
    SegmentsOfDir(a);
    SegmentsOfDir(b);
    PassOnSegments("/v1.2/index.html");
    PassOnSegments("/v1.2/");
    DottedDirectory();
    DottedPage();
  }

  // ----- the same as methods on a URL -----

  class Url {
    var Path: string
    var RawQuery: string

    constructor (path: string, query: string)
      ensures Path == path && RawQuery == query
    {
      Path, RawQuery := path, query;
    }
  }

  /** The shortest path to the same place. */
  method CleanPath(u: Url)
    requires u.Path == "" || Rooted(u.Path)
    modifies u`Path
    ensures old(u.Path) == "" ==> u.Path == ""
    ensures old(u.Path) != "" ==>
              && u.Path == Clean(old(u.Path)) && Rooted(u.Path) && Place(u.Path) == Place(old(u.Path))
              && forall q: string :: Rooted(q) && Place(q) == Place(old(u.Path)) ==> |u.Path| <= |q|
  {
    if u.Path != "" {
      CleanIsShortest(u.Path);
      u.Path := Clean(u.Path);
    }
  }

  predicate Low(s: string) {
    forall i :: 0 <= i < |s| ==> !('A' <= s[i] <= 'Z')
  }

  lemma {:induction false} CutStaysLow(p: string, names: seq<string>)
    requires Low(p)
    ensures Low(CutIndex(p, names))
  {
    if names == [] {
    } else {
      CutStaysLow(p, names[1..]);
    }
  }

  lemma DocsPathIsLow(p: string)
    ensures Low(DocsPath(p))
  {
    var lowered := Lower(StripLocale(p));
    assert Low(lowered) by {
      assert forall i :: 0 <= i < |lowered| ==> lowered[i] == LowerChar(StripLocale(p)[i]);
    }
    CutStaysLow(lowered, INDEX_NAMES);
  }

  method NormalizeDocs(u: Url)
    modifies u
    ensures u.Path == DocsPath(old(u.Path)) && u.RawQuery == ""
    ensures forall i :: 0 <= i < |u.Path| ==> !('A' <= u.Path[i] <= 'Z')
  {
    if HasLocale(u.Path) {
      u.Path := "/" + u.Path[7..];
    }
    u.Path := Lower(u.Path);
    ghost var lowered := u.Path;
    var i := 0;
    while i < |INDEX_NAMES|
      invariant 0 <= i <= |INDEX_NAMES| && u.Path == lowered
      invariant CutIndex(lowered, INDEX_NAMES) == CutIndex(lowered, INDEX_NAMES[i..])
    {
      if HasSuffix(u.Path, INDEX_NAMES[i]) {
        u.Path := u.Path[..|u.Path| - |INDEX_NAMES[i]|];
        break;
      }
      i := i + 1;
    }
    assert u.Path == CutIndex(lowered, INDEX_NAMES);
    if !HasSuffix(u.Path, "/") && '.' !in Base(u.Path) {
      u.Path := u.Path + "/";
    }
    u.RawQuery := "";
    assert u.Path == DocsPath(old(u.Path));
    DocsPathIsLow(old(u.Path));
    assert Low(u.Path);
  }
}
