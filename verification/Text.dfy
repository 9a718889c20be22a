/** Splitting a text at separator characters, as strings.Fields and strings.FieldsFunc do. */
module Text {

  /** How many characters at the front of s are not separators. */
  function RunLength(s: string, sep: char -> bool): (n: nat)
    ensures n <= |s|
    ensures forall k :: 0 <= k < n ==> !sep(s[k])
    ensures n < |s| ==> sep(s[n])
  {
    if s == "" || sep(s[0]) then 0 else 1 + RunLength(s[1..], sep)
  }

  function Fields(s: string, sep: char -> bool): seq<string>
    decreases |s|
  {
    if s == "" then []
    else if sep(s[0]) then Fields(s[1..], sep)
    else
      var n := RunLength(s, sep);
      [s[..n]] + Fields(s[n..], sep)
  }

  function Join(parts: seq<string>, glue: string): string {
    if parts == [] then ""
    else if |parts| == 1 then parts[0]
    else parts[0] + glue + Join(parts[1..], glue)
  }

  /** A token: not empty and free of separators. */
  predicate Token(t: string, sep: char -> bool) {
    t != "" && forall k :: 0 <= k < |t| ==> !sep(t[k])
  }

  predicate Tokens(ts: seq<string>, sep: char -> bool) {
    forall i :: 0 <= i < |ts| ==> Token(ts[i], sep)
  }

  lemma {:induction false} FieldsAreTokens(s: string, sep: char -> bool)
    ensures Tokens(Fields(s, sep), sep)
    decreases |s|
  {
    if s == "" {
    } else if sep(s[0]) {
      FieldsAreTokens(s[1..], sep);
    } else {
      FieldsAreTokens(s[RunLength(s, sep)..], sep);
    }
  }

  lemma {:induction false} RunLengthOfToken(t: string, rest: string, sep: char -> bool)
    requires forall k :: 0 <= k < |t| ==> !sep(t[k])
    requires rest == "" || sep(rest[0])
    ensures RunLength(t + rest, sep) == |t|
  {
    if t == "" {
      assert t + rest == rest;
    } else {
      assert (t + rest)[1..] == t[1..] + rest;
      RunLengthOfToken(t[1..], rest, sep);
    }
  }

  lemma FirstField(s: string, n: nat, sep: char -> bool)
    requires 0 < n <= |s| && (forall k :: 0 <= k < n ==> !sep(s[k])) && (n == |s| || sep(s[n]))
    ensures Fields(s, sep) == [s[..n]] + Fields(s[n..], sep)
  {
    assert s == s[..n] + s[n..];
    RunLengthOfToken(s[..n], s[n..], sep);
  }

  /** Splitting at any separator and then splitting both sides is splitting the whole. */
  lemma {:induction false} FieldsAtSeparator(a: string, c: char, b: string, sep: char -> bool)
    requires sep(c)
    ensures Fields(a + [c] + b, sep) == Fields(a, sep) + Fields(b, sep)
    decreases |a|
  {
    var s := a + [c] + b;
    if a == "" {
      assert s[0] == c && s[1..] == b;
    } else if sep(a[0]) {
      assert s[0] == a[0] && s[1..] == a[1..] + [c] + b;
      FieldsAtSeparator(a[1..], c, b, sep);
    } else {
      var n := RunLength(a, sep);
      assert s[..n] == a[..n] && s[n..] == a[n..] + [c] + b;
      FirstField(s, n, sep);
      FirstField(a, n, sep);
      FieldsAtSeparator(a[n..], c, b, sep);
    }
  }

  /** Splitting undoes joining: tokens glued with one separator come back unchanged. */
  lemma {:induction false} FieldsOfJoin(ts: seq<string>, glue: char, sep: char -> bool)
    requires Tokens(ts, sep) && sep(glue)
    ensures Fields(Join(ts, [glue]), sep) == ts
  {
    if ts == [] {
    } else {
      var t, more := ts[0], ts[1..];
      var rest := if more == [] then "" else [glue] + Join(more, [glue]);
      assert Join(ts, [glue]) == t + rest;
      RunLengthOfToken(t, rest, sep);
      assert (t + rest)[..|t|] == t && (t + rest)[|t|..] == rest;
      assert (t + rest)[0] == t[0];
      if more != [] {
        FieldsOfJoin(more, glue, sep);
        assert rest[1..] == Join(more, [glue]);
      }
      assert Fields(rest, sep) == more;
      assert ts == [t] + more;
    }
  }

  /** strings.Split at one separator character. */
  function Split(s: string, sep: char): (parts: seq<string>)
    ensures |parts| >= 1
  {
    if s == "" then [""]
    else
      var rest := Split(s[1..], sep);
      if s[0] == sep then [""] + rest else [[s[0]] + rest[0]] + rest[1..]
  }

  lemma {:induction false} SplitCount(s: string, sep: char)
    ensures |Split(s, sep)| == 1 + multiset(s)[sep]
  {
    if s == "" {
    } else {
      assert s == [s[0]] + s[1..];
      SplitCount(s[1..], sep);
    }
  }

  lemma {:induction false} SplitNoSeparator(s: string, sep: char)
    requires sep !in s
    ensures Split(s, sep) == [s]
  {
    if s == "" {
    } else {
      assert s[0] in s && forall c :: c in s[1..] ==> c in s;
      SplitNoSeparator(s[1..], sep);
      assert [s[0]] + s[1..] == s;
    }
  }

  lemma {:induction false} SplitOnce(a: string, b: string, sep: char)
    requires sep !in a && sep !in b
    ensures Split(a + [sep] + b, sep) == [a, b]
  {
    if a == "" {
      assert (a + [sep] + b)[1..] == b;
      SplitNoSeparator(b, sep);
    } else {
      assert (a + [sep] + b)[1..] == a[1..] + [sep] + b;
      assert a[0] in a && forall c :: c in a[1..] ==> c in a;
      SplitOnce(a[1..], b, sep);
      assert [a[0]] + a[1..] == a;
    }
  }

  // ----- the tokens are the maximal runs of the text -----

  /** s[i..j] is a longest stretch of non-separators. */
  predicate MaximalRun(s: string, sep: char -> bool, i: nat, j: nat) {
    && i < j <= |s|
    && (forall k :: i <= k < j ==> !sep(s[k]))
    && (i == 0 || sep(s[i - 1]))
    && (j == |s| || sep(s[j]))
  }

  /** The runs are listed from left to right and each is maximal in s. */
  predicate RunList(s: string, sep: char -> bool, runs: seq<(nat, nat)>) {
    && (forall r :: 0 <= r < |runs| ==> MaximalRun(s, sep, runs[r].0, runs[r].1))
    && (forall r, r' :: 0 <= r < r' < |runs| ==> runs[r].1 < runs[r'].0)
  }

  /** runs lists every maximal run of s that starts at or after from. */
  ghost predicate AllRunsFrom(s: string, sep: char -> bool, from: nat, runs: seq<(nat, nat)>) {
    && RunList(s, sep, runs)
    && (forall r :: 0 <= r < |runs| ==> from <= runs[r].0)
    && (forall i: nat, j: nat :: from <= i && MaximalRun(s, sep, i, j) ==> (i, j) in runs)
  }

  predicate Spells(s: string, runs: seq<(nat, nat)>, tokens: seq<string>) {
    && |runs| == |tokens|
    && forall r :: 0 <= r < |runs| ==> runs[r].0 <= runs[r].1 <= |s| && tokens[r] == s[runs[r].0..runs[r].1]
  }

  /** Where the run around position i ends. */
  function RunEnd(s: string, i: nat, sep: char -> bool): (to: nat)
    requires i <= |s|
    ensures i <= to <= |s|
    ensures forall k :: i <= k < to ==> !sep(s[k])
    ensures to == |s| || sep(s[to])
    decreases |s| - i
  {
    if i == |s| || sep(s[i]) then i else RunEnd(s, i + 1, sep)
  }

  /** Where Fields(s[from..]) finds its tokens. */
  function Runs(s: string, from: nat, sep: char -> bool): seq<(nat, nat)>
    requires from <= |s|
    decreases |s| - from
  {
    if from == |s| then []
    else if sep(s[from]) then Runs(s, from + 1, sep)
    else
      var to := RunEnd(s, from + 1, sep);
      [(from, to)] + Runs(s, to, sep)
  }

  lemma {:induction false} RunsSpellFields(s: string, from: nat, sep: char -> bool)
    requires from <= |s|
    ensures Spells(s, Runs(s, from, sep), Fields(s[from..], sep))
    decreases |s| - from
  {
    if from == |s| {
    } else if sep(s[from]) {
      RunsSpellFields(s, from + 1, sep);
      FieldsSkip(s, from, sep);
    } else {
      var to := RunEnd(s, from + 1, sep);
      RunsSpellFields(s, to, sep);
      FieldsAt(s, from, to, sep);
      ConsSpells(s, from, to, Runs(s, to, sep), Fields(s[to..], sep));
    }
  }

  lemma ConsSpells(s: string, from: nat, to: nat, runs: seq<(nat, nat)>, tokens: seq<string>)
    requires from <= to <= |s| && Spells(s, runs, tokens)
    ensures Spells(s, [(from, to)] + runs, [s[from..to]] + tokens)
  {
  }

  lemma {:induction false} RunsAreMaximal(s: string, from: nat, sep: char -> bool)
    requires from <= |s| && (from == 0 || from == |s| || sep(s[from]) || sep(s[from - 1]))
    ensures AllRunsFrom(s, sep, from, Runs(s, from, sep))
    decreases |s| - from
  {
    if from == |s| {
    } else if sep(s[from]) {
      RunsAreMaximal(s, from + 1, sep);
      SkipSeparator(s, sep, from, Runs(s, from + 1, sep));
    } else {
      var to := RunEnd(s, from + 1, sep);
      RunsAreMaximal(s, to, sep);
      ConsRun(s, sep, from, to, Runs(s, to, sep));
    }
  }

  /** Fields lists exactly the maximal runs of non-separators, from left to right. */
  lemma FieldsAreMaximalRuns(s: string, sep: char -> bool)
    ensures Spells(s, Runs(s, 0, sep), Fields(s, sep))
    ensures RunList(s, sep, Runs(s, 0, sep))
    ensures forall i: nat, j: nat :: MaximalRun(s, sep, i, j) <==> (i, j) in Runs(s, 0, sep)
  {
    assert s[0..] == s;
    RunsSpellFields(s, 0, sep);
    RunsAreMaximal(s, 0, sep);
  }

  lemma FieldsSkip(s: string, from: nat, sep: char -> bool)
    requires from < |s| && sep(s[from])
    ensures Fields(s[from..], sep) == Fields(s[from + 1..], sep)
  {
    assert s[from..][1..] == s[from + 1..];
  }

  lemma FieldsAt(s: string, from: nat, to: nat, sep: char -> bool)
    requires from < to <= |s| && (forall k :: from <= k < to ==> !sep(s[k])) && (to == |s| || sep(s[to]))
    ensures Fields(s[from..], sep) == [s[from..to]] + Fields(s[to..], sep)
  {
    var token, rest := s[from..to], s[to..];
    assert s[from..] == token + rest;
    RunLengthOfToken(token, rest, sep);
    assert (token + rest)[..|token|] == token && (token + rest)[|token|..] == rest;
    assert s[from..][0] == s[from];
  }

  lemma SkipSeparator(s: string, sep: char -> bool, from: nat, runs: seq<(nat, nat)>)
    requires from < |s| && sep(s[from]) && AllRunsFrom(s, sep, from + 1, runs)
    ensures AllRunsFrom(s, sep, from, runs)
  {
    forall i: nat, j: nat | from <= i && MaximalRun(s, sep, i, j)
      ensures (i, j) in runs
    {
      assert i != from;
    }
  }

  lemma ConsRun(s: string, sep: char -> bool, from: nat, to: nat, tail: seq<(nat, nat)>)
    requires MaximalRun(s, sep, from, to) && AllRunsFrom(s, sep, to, tail)
    ensures AllRunsFrom(s, sep, from, [(from, to)] + tail)
  {
    var runs := [(from, to)] + tail;
    forall r | 0 <= r < |tail|
      ensures to < tail[r].0
    {
      assert MaximalRun(s, sep, tail[r].0, tail[r].1);
    }
    forall i: nat, j: nat | from <= i && MaximalRun(s, sep, i, j)
      ensures (i, j) in runs
    {
      if i == from {
        OneEnd(s, sep, i, to, j);
        assert runs[0] == (i, j);
      } else if to <= i {
        var r :| 0 <= r < |tail| && tail[r] == (i, j);
        assert runs[r + 1] == (i, j);
      }
    }
  }

  lemma OneEnd(s: string, sep: char -> bool, i: nat, j: nat, j': nat)
    requires MaximalRun(s, sep, i, j) && MaximalRun(s, sep, i, j')
    ensures j == j'
  {
  }
}
