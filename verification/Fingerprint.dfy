/** From page text to a 64-bit fingerprint: tokens, shingles and the majority vote of their hashes. */
module Fingerprint {
  import opened Options
  import opened Bits
  import opened Sets
  import opened Lists
  import opened Text

  const SHINGLE_SIZE := 3

  /** unicode.IsSpace */
  predicate Space(c: char) {
    var p := c as int;
    || 0x9 <= p <= 0xD || p == 0x20 || p == 0x85 || p == 0xA0 || p == 0x1680 || 0x2000 <= p <= 0x200A
    || p == 0x2028 || p == 0x2029 || p == 0x202F || p == 0x205F || p == 0x3000
  }

  function Tokenize(data: string): seq<string> {
    Fields(data, c => Space(c))
  }

  // ----- shingles -----

  /** Every window of three consecutive tokens, glued with blanks. */
  function ShinglesOf(tokens: seq<string>): seq<string> {
    if |tokens| < SHINGLE_SIZE then []
    else
      var n := |tokens| - SHINGLE_SIZE + 1;
      seq(n, i requires 0 <= i < n => Join(tokens[i..i + SHINGLE_SIZE], " "))
  }

  /**
   * Shingles, for any window size n. None stands for a run-time panic: with two or more tokens,
   * a window size above len(tokens) + 1 gives make a negative capacity, and a negative one a
   * slice with bounds out of order.
   */
  method Shingles(tokens: seq<string>, n: int) returns (shingles: Option<seq<string>>)
    ensures |tokens| < 2 ==> shingles == Some([])
    ensures |tokens| >= 2 ==> (shingles.None? <==> n < 0 || n > |tokens| + 1)
    ensures |tokens| >= 2 && shingles.Some? ==>
              && |shingles.value| == |tokens| - n + 1
              && forall i :: 0 <= i < |shingles.value| ==> shingles.value[i] == Join(tokens[i..i + n], " ")
    ensures n == SHINGLE_SIZE ==> shingles == Some(ShinglesOf(tokens))
  {
    if |tokens| < 2 {
      return Some([]);
    }
    if |tokens| - n + 1 < 0 {
      return None;
    }
    var list := [];
    var i := 0;
    while i <= |tokens| - n
      invariant 0 <= i && (i == 0 || n >= 0)
      invariant i <= |tokens| - n + 1 && |list| == i
      invariant forall j :: 0 <= j < i ==> n >= 0 && list[j] == Join(tokens[j..j + n], " ")
    {
      if i + n < i {
        return None;
      }
      list := list + [Join(tokens[i..i + n], " ")];
      i := i + 1;
    }
    assert n == SHINGLE_SIZE ==> list == ShinglesOf(tokens);
    return Some(list);
  }

  /** Each shingle splits back into its three tokens. */
  lemma ShingleSplits(tokens: seq<string>, i: nat)
    requires Tokens(tokens, c => Space(c)) && i + SHINGLE_SIZE <= |tokens|
    ensures Tokenize(ShinglesOf(tokens)[i]) == tokens[i..i + SHINGLE_SIZE]
  {
    FieldsOfJoin(tokens[i..i + SHINGLE_SIZE], ' ', c => Space(c));
  }

  /** The first shingle's tokens, then the last token of every later shingle. */
  function Rebuild(shingles: seq<string>): seq<string> {
    if shingles == [] then []
    else if |shingles| == 1 then Tokenize(shingles[0])
    else
      var last := Tokenize(shingles[|shingles| - 1]);
      Rebuild(shingles[..|shingles| - 1]) + if last == [] then [] else [last[|last| - 1]]
  }

  lemma ShinglesInFront(x: seq<string>, rest: seq<string>)
    ensures |ShinglesOf(x)| <= |ShinglesOf(x + rest)|
    ensures ShinglesOf(x + rest)[..|ShinglesOf(x)|] == ShinglesOf(x)
  {
    forall i | 0 <= i < |ShinglesOf(x)|
      ensures ShinglesOf(x + rest)[i] == ShinglesOf(x)[i]
    {
      assert (x + rest)[i..i + SHINGLE_SIZE] == x[i..i + SHINGLE_SIZE];
    }
  }

  /** From three tokens up, the shingle list determines the token list. */
  lemma {:induction false} ShinglesLossless(tokens: seq<string>)
    requires Tokens(tokens, c => Space(c)) && |tokens| >= SHINGLE_SIZE
    ensures Rebuild(ShinglesOf(tokens)) == tokens
  {
    var n := |tokens| - 1;
    ShingleSplits(tokens, n + 1 - SHINGLE_SIZE);
    if n >= SHINGLE_SIZE {
      ShinglesLossless(tokens[..n]);
      assert tokens == tokens[..n] + [tokens[n]];
      ShinglesInFront(tokens[..n], [tokens[n]]);
    }
  }

  /** The same for the tokens of a page. */
  lemma PageShinglesLossless(page: string)
    ensures |Tokenize(page)| >= SHINGLE_SIZE ==> Rebuild(ShinglesOf(Tokenize(page))) == Tokenize(page)
    ensures |Tokenize(page)| < SHINGLE_SIZE ==> ShinglesOf(Tokenize(page)) == []
  {
    FieldsAreTokens(page, c => Space(c));
    if |Tokenize(page)| >= SHINGLE_SIZE { ShinglesLossless(Tokenize(page)); }
  }

  // ----- SimHash -----

  /** How many of the shingles have bit k set in their hash. */
  function Votes(shingles: seq<string>, sum: string -> bv64, k: Position): (n: nat)
    ensures n <= |shingles|
  {
    if shingles == [] then 0
    else Votes(shingles[..|shingles| - 1], sum, k) + if Bit(sum(shingles[|shingles| - 1]), k) then 1 else 0
  }

  /** Set bits count +1 and clear bits -1. */
  function Tally(shingles: seq<string>, sum: string -> bv64, k: Position): int {
    2 * Votes(shingles, sum, k) - |shingles|
  }

  /** fp has exactly the bits that a strict majority of the shingle hashes have. */
  ghost predicate IsSimHash(fp: bv64, shingles: seq<string>, sum: string -> bv64) {
    forall k: Position :: Bit(fp, k) <==> 2 * Votes(shingles, sum, k) > |shingles|
  }

  function Ballot(hash: bv64, k: Position): int {
    if Bit(hash, k) then 1 else -1
  }

  lemma TallyAppend(shingles: seq<string>, s: nat, sum: string -> bv64, k: Position)
    requires s < |shingles|
    ensures Tally(shingles[..s + 1], sum, k) == Tally(shingles[..s], sum, k) + Ballot(sum(shingles[s]), k)
  {
    assert shingles[..s + 1][..s] == shingles[..s];
  }

  lemma NextPosition(u: Position, k: Position)
    ensures k as int < u as int + 1 <==> k as int < u as int || k == u
  {
  }

  lemma SetIf(fp: bv64, fp': bv64, won: bool, u: Position, k: Position)
    requires fp' == if won then fp | (1 << u) else fp
    ensures Bit(fp', k) <==> Bit(fp, k) || (won && k == u)
  {
    if won { SetBit(fp, u, k); }
  }

  /** The inner loop: one hash votes on all 64 positions. */
  method CastBallots(vector: array<int>, hash: bv64)
    requires vector.Length == 64
    modifies vector
    ensures forall k: Position :: vector[k as int] == old(vector[k as int]) + Ballot(hash, k)
  {
    ghost var was := vector[..];
    var u: Position := 0;
    for i := 0 to 64
      invariant i < 64 ==> u as int == i
      invariant forall k: Position :: k as int < i ==> vector[k as int] == was[k as int] + Ballot(hash, k)
      invariant forall j :: i <= j < 64 ==> vector[j] == was[j]
    {
      if (hash >> u) & 1 == 1 {
        vector[i] := vector[i] + 1;
      } else {
        vector[i] := vector[i] - 1;
      }
      forall k: Position
        ensures k as int < i + 1 ==> vector[k as int] == was[k as int] + Ballot(hash, k)
      {
        NextPosition(u, k);
      }
      u := u + 1;
    }
  }

  /** The outer loop: the votes of all shingles, position by position. */
  method CountVotes(shingles: seq<string>, sum: string -> bv64) returns (vector: array<int>)
    ensures fresh(vector) && vector.Length == 64
    ensures forall k: Position :: vector[k as int] == Tally(shingles, sum, k)
  {
    vector := new int[64](_ => 0);
    for s := 0 to |shingles|
      invariant forall k: Position :: vector[k as int] == Tally(shingles[..s], sum, k)
    {
      ghost var was, counted := vector[..], shingles[..s + 1];
      CastBallots(vector, sum(shingles[s]));
      forall k: Position
        ensures vector[k as int] == Tally(counted, sum, k)
      {
        TallyAppend(shingles, s, sum, k);
        assert was[k as int] == Tally(shingles[..s], sum, k);
      }
    }
    assert shingles[..|shingles|] == shingles;
  }

  /** SimHash, with the string hash function as a parameter. */
  method SimHash(shingles: seq<string>, sum: string -> bv64) returns (fp: bv64)
    ensures IsSimHash(fp, shingles, sum)
  {
    var vector := CountVotes(shingles, sum);
    fp := 0;
    forall k: Position
      ensures !Bit(fp, k)
    {
      ZeroBit(k);
    }
    var u: Position := 0;
    for i := 0 to 64
      invariant i < 64 ==> u as int == i
      invariant forall k: Position :: Bit(fp, k) <==> k as int < i && vector[k as int] > 0
    {
      ghost var before := fp;
      if vector[i] > 0 {
        fp := fp | (1 << u);
      }
      forall k: Position
        ensures Bit(fp, k) <==> k as int < i + 1 && vector[k as int] > 0
      {
        SetIf(before, fp, vector[i] > 0, u, k);
        NextPosition(u, k);
      }
      u := u + 1;
    }
    forall k: Position
      ensures Bit(fp, k) <==> Tally(shingles, sum, k) > 0
    {
      assert vector[k as int] == Tally(shingles, sum, k);
    }
  }

  /** A list of shingles has only one fingerprint. */
  lemma SimHashUnique(a: bv64, b: bv64, shingles: seq<string>, sum: string -> bv64)
    requires IsSimHash(a, shingles, sum) && IsSimHash(b, shingles, sum)
    ensures a == b
  {
    forall k: Position
      ensures Bit(a, k) == Bit(b, k)
    {
      assert Bit(a, k) <==> 2 * Votes(shingles, sum, k) > |shingles|;
    }
    Extensional(a, b);
  }

  /** The fingerprint as a function: the winning positions up to k. */
  function WinnersUpTo(shingles: seq<string>, sum: string -> bv64, k: Position): bv64
    decreases k
  {
    var lower := if k == 0 then 0 else WinnersUpTo(shingles, sum, k - 1);
    if Tally(shingles, sum, k) > 0 then lower | (1 << k) else lower
  }

  lemma PositionOrder(j: Position, k: Position)
    ensures k == 0 ==> (j <= k <==> j == k)
    ensures k != 0 ==> (j <= k <==> j <= k - 1 || j == k)
  {
  }

  lemma {:induction false} WinnersBit(shingles: seq<string>, sum: string -> bv64, k: Position, j: Position)
    ensures Bit(WinnersUpTo(shingles, sum, k), j) <==> j <= k && Tally(shingles, sum, j) > 0
    decreases k
  {
    var fp, won := WinnersUpTo(shingles, sum, k), Tally(shingles, sum, k) > 0;
    PositionOrder(j, k);
    if k == 0 {
      ZeroBit(j);
      SetIf(0, fp, won, k, j);
    } else {
      WinnersBit(shingles, sum, k - 1, j);
      SetIf(WinnersUpTo(shingles, sum, k - 1), fp, won, k, j);
    }
  }

  function SimHashOf(shingles: seq<string>, sum: string -> bv64): (fp: bv64)
    ensures IsSimHash(fp, shingles, sum)
  {
    WinnersAll(shingles, sum);
    WinnersUpTo(shingles, sum, 63)
  }

  lemma WinnersAll(shingles: seq<string>, sum: string -> bv64)
    ensures IsSimHash(WinnersUpTo(shingles, sum, 63), shingles, sum)
  {
    forall k: Position
      ensures Bit(WinnersUpTo(shingles, sum, 63), k) <==> 2 * Votes(shingles, sum, k) > |shingles|
    {
      WinnersBit(shingles, sum, 63, k);
    }
  }

  /** Pages of fewer than three tokens all have fingerprint 0. */
  lemma ShortPageFingerprint(page: string, sum: string -> bv64)
    requires |Tokenize(page)| < SHINGLE_SIZE
    ensures SimHashOf(ShinglesOf(Tokenize(page)), sum) == 0
  {
    var fp := SimHashOf([], sum);
    forall k: Position
      ensures Bit(fp, k) == Bit(0, k)
    {
      ZeroBit(k);
      assert Bit(fp, k) <==> 2 * Votes([], sum, k) > 0;
    }
    Extensional(fp, 0);
  }

  // ----- the vote does not depend on the order of the shingles -----

  lemma {:induction false} TallyConcat(a: seq<string>, b: seq<string>, sum: string -> bv64, k: Position)
    ensures Tally(a + b, sum, k) == Tally(a, sum, k) + Tally(b, sum, k)
  {
    if b == [] {
      assert a + b == a;
    } else {
      var n := |b| - 1;
      assert (a + b)[..|a| + n] == a + b[..n];
      TallyConcat(a, b[..n], sum, k);
    }
  }

  lemma TallySplit(a: seq<string>, i: nat, sum: string -> bv64, k: Position)
    requires i < |a|
    ensures Tally(a, sum, k) == Tally(RemoveAt(a, i), sum, k) + Ballot(sum(a[i]), k)
  {
    assert a == a[..i + 1] + a[i + 1..];
    TallyConcat(a[..i + 1], a[i + 1..], sum, k);
    TallyConcat(a[..i], a[i + 1..], sum, k);
    TallyAppend(a, i, sum, k);
  }

  lemma {:induction false} TallyPermutation(a: seq<string>, b: seq<string>, sum: string -> bv64, k: Position)
    requires multiset(a) == multiset(b)
    ensures Tally(a, sum, k) == Tally(b, sum, k)
    decreases |a|
  {
    if a == [] {
      assert |multiset(b)| == 0;
    } else {
      assert a[0] in multiset(b);
      var i :| 0 <= i < |b| && b[i] == a[0];
      RemoveAtMultiset(a, 0);
      RemoveAtMultiset(b, i);
      TallyPermutation(RemoveAt(a, 0), RemoveAt(b, i), sum, k);
      TallySplit(a, 0, sum, k);
      TallySplit(b, i, sum, k);
    }
  }

  /** Reordering the shingles of a page does not change its fingerprint. */
  lemma SimHashOrderIndependent(fa: bv64, fb: bv64, a: seq<string>, b: seq<string>, sum: string -> bv64)
    requires multiset(a) == multiset(b) && IsSimHash(fa, a, sum) && IsSimHash(fb, b, sum)
    ensures fa == fb
  {
    assert |a| == |multiset(a)| == |multiset(b)| == |b|;
    forall k: Position
      ensures Bit(fa, k) == Bit(fb, k)
    {
      TallyPermutation(a, b, sum, k);
      assert Bit(fa, k) <==> 2 * Votes(a, sum, k) > |a|;
      assert Bit(fb, k) <==> 2 * Votes(b, sum, k) > |b|;
    }
    Extensional(fa, fb);
  }

  // ----- edits -----

  lemma TallyBound(a: seq<string>, sum: string -> bv64, k: Position)
    ensures -|a| <= Tally(a, sum, k) <= |a|
  {
  }

  /** A bit that an edit exchanging at most m votes could still turn over. */
  predicate Marginal(shingles: seq<string>, sum: string -> bv64, m: nat, k: Position) {
    0 < Tally(shingles, sum, k) + m && Tally(shingles, sum, k) <= m
  }

  function MarginalBits(shingles: seq<string>, sum: string -> bv64, m: nat): (s: set<Position>)
    ensures forall k: Position :: k in s <==> Marginal(shingles, sum, m, k)
  {
    set k: Position | k in AllPositions() && Marginal(shingles, sum, m, k)
  }

  /**
   * Exchanging the shingles gone for the shingles come moves every tally by at most their
   * number, so only marginal bits of the old page can differ in the new fingerprint.
   */
  lemma EditFlipsOnlyMarginalBits(
    fa: bv64, fb: bv64, a: seq<string>, b: seq<string>, kept: seq<string>, gone: seq<string>, come: seq<string>,
    sum: string -> bv64)
    requires multiset(a) == multiset(kept + gone) && multiset(b) == multiset(kept + come)
    requires IsSimHash(fa, a, sum) && IsSimHash(fb, b, sum)
    ensures Ones(fa ^ fb) <= MarginalBits(a, sum, |gone| + |come|)
    ensures Dist(fa, fb) <= |MarginalBits(a, sum, |gone| + |come|)|
  {
    var flipped := Ones(fa ^ fb);
    forall k: Position | k in flipped
      ensures Marginal(a, sum, |gone| + |come|, k)
    {
      TallyPermutation(a, kept + gone, sum, k);
      TallyPermutation(b, kept + come, sum, k);
      TallyConcat(kept, gone, sum, k);
      TallyConcat(kept, come, sum, k);
      TallyBound(gone, sum, k);
      TallyBound(come, sum, k);
      XorBit(fa, fb, k);
      assert Bit(fa, k) <==> 2 * Votes(a, sum, k) > |a|;
      assert Bit(fb, k) <==> 2 * Votes(b, sum, k) > |b|;
    }
    SubsetSize(Ones(fa ^ fb), MarginalBits(a, sum, |gone| + |come|));
  }

  // ----- the fingerprint of a text in plain numbers -----

  /** The code points that are white space. */
  const White: set<int> := {
    9, 10, 11, 12, 13, 32, 133, 160, 5760, 8192, 8193, 8194, 8195, 8196, 8197, 8198, 8199, 8200, 8201, 8202, 8232,
    8233, 8239, 8287, 12288}

  predicate NoWhite(s: string) {
    forall i :: 0 <= i < |s| ==> s[i] as int !in White
  }

  /** A text is cut at white space and nowhere else. */
  lemma CutAtWhite(a: string, c: char, b: string, word: string)
    requires c as int in White && NoWhite(word) && word != ""
    ensures Tokenize(a + [c] + b) == Tokenize(a) + Tokenize(b)
    ensures Tokenize("") == [] && Tokenize(word) == [word]
  {
    FieldsAtSeparator(a, c, b, x => Space(x));
    FieldsOfJoin([word], ' ', x => Space(x));
  }

  /** Three consecutive words with blanks between them. */
  function Window(words: seq<string>, i: nat): string
    requires i + 3 <= |words|
  {
    words[i] + " " + words[i + 1] + " " + words[i + 2]
  }

  /** The windows that hash to a value with bit k. */
  ghost function Windows(words: seq<string>, sum: string -> bv64, k: Position): set<nat> {
    set i: nat | i + 3 <= |words| && Bit(sum(Window(words, i)), k)
  }

  ghost function Voters(shingles: seq<string>, sum: string -> bv64, k: Position): set<nat> {
    set i: nat | i < |shingles| && Bit(sum(shingles[i]), k)
  }

  lemma OneVoterMore(shingles: seq<string>, shingle: string, sum: string -> bv64, k: Position)
    ensures |Voters(shingles + [shingle], sum, k)| == |Voters(shingles, sum, k)| + if Bit(sum(shingle), k) then 1 else 0
  {
    var before := Voters(shingles, sum, k);
    assert Voters(shingles + [shingle], sum, k) == if Bit(sum(shingle), k) then before + {|shingles|} else before;
  }

  lemma {:induction false} VotesAreVoters(shingles: seq<string>, sum: string -> bv64, k: Position)
    ensures Votes(shingles, sum, k) == |Voters(shingles, sum, k)|
  {
    if shingles == [] {
    } else {
      var n := |shingles| - 1;
      VotesAreVoters(shingles[..n], sum, k);
      OneVoterMore(shingles[..n], shingles[n], sum, k);
      assert shingles[..n] + [shingles[n]] == shingles;
    }
  }

  lemma JoinThree(a: string, b: string, c: string)
    ensures Join([a, b, c], " ") == a + " " + b + " " + c
  {
    assert [a, b, c][1..] == [b, c] && [b, c][1..] == [c];
    assert Join([b, c], " ") == b + " " + c;
    assert a + " " + (b + " " + c) == a + " " + b + " " + c;
  }

  lemma ShingleAt(words: seq<string>, i: nat)
    requires i + 3 <= |words|
    ensures |ShinglesOf(words)| == |words| - 2
    ensures ShinglesOf(words)[i] == Window(words, i)
  {
    assert words[i..i + 3] == [words[i], words[i + 1], words[i + 2]];
    JoinThree(words[i], words[i + 1], words[i + 2]);
  }

  /** A bit is set if and only if more than half of the windows of three words have it. */
  lemma FingerprintInNumbers(words: seq<string>, sum: string -> bv64, k: Position)
    ensures Bit(SimHashOf(ShinglesOf(words), sum), k) <==> 2 * |Windows(words, sum, k)| > |words| - 2 && |words| >= 3
  {
    var shingles := ShinglesOf(words);
    assert Bit(SimHashOf(shingles, sum), k) <==> 2 * Votes(shingles, sum, k) > |shingles|;
    VotesAreVoters(shingles, sum, k);
    if |words| >= 3 {
      forall i: nat | i + 3 <= |words|
        ensures |shingles| == |words| - 2 && shingles[i] == Window(words, i)
      {
        ShingleAt(words, i);
      }
      ShingleAt(words, 0);
      assert Voters(shingles, sum, k) == Windows(words, sum, k);
    }
  }
}
