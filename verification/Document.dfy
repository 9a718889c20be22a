/** The term counts of a document. */
module Document {
  import opened Options
  import opened Lists
  import opened Sets
  import opened Text

  const MAX_TERM_BYTES := 50

  /** Character classes, stopwords and the library functions the index is built with. */
  datatype Language = Language(
    isLetter: char -> bool, isNumber: char -> bool, stopwords: set<string>, toLower: string -> string,
    stem: string -> string)

  function Separator(l: Language): char -> bool {
    (c: char) => !l.isLetter(c) && !l.isNumber(c)
  }

  /** tokenize */
  function Tokenize(l: Language, text: string): seq<string> {
    Fields(text, Separator(l))
  }

  /** How many bytes a character takes in UTF-8. */
  function ByteLength(c: char): nat {
    var n := c as int;
    if n < 0x80 then 1 else if n < 0x800 then 2 else if n < 0x1_0000 then 3 else 4
  }

  function Bytes(s: string): nat {
    if s == "" then 0 else ByteLength(s[0]) + Bytes(s[1..])
  }

  /** strings.Map that drops what is neither letter nor number. */
  function Cleaned(l: Language, s: string): string {
    if s == "" then ""
    else (if Separator(l)(s[0]) then "" else [s[0]]) + Cleaned(l, s[1..])
  }

  function Stemmed(l: Language, word: string): string {
    l.stem(Cleaned(l, word))
  }

  /** The term a word is counted as, or none for a stopword, an empty stem and a long one. */
  function TermOf(l: Language, word: string): Option<string> {
    var lower := l.toLower(word);
    var term := Stemmed(l, lower);
    if lower in l.stopwords || term == "" || Bytes(term) > MAX_TERM_BYTES then None else Some(term)
  }

  function IsTerm(l: Language, word: string, term: string): nat {
    if TermOf(l, word) == Some(term) then 1 else 0
  }

  function Survives(l: Language, word: string): nat {
    if TermOf(l, word) == None then 0 else 1
  }

  /** How often a term is counted in a list of words. */
  function Occurrences(l: Language, words: seq<string>, term: string): nat {
    Sum(words, (w: string) => IsTerm(l, w, term))
  }

  function Survivors(l: Language, words: seq<string>): nat {
    Sum(words, (w: string) => Survives(l, w))
  }

  // ----- the index -----

  function CountIn(index: map<string, nat>, term: string): nat {
    if term in index then index[term] else 0
  }

  lemma OccurrencesAppend(l: Language, words: seq<string>, word: string, term: string)
    ensures Occurrences(l, words + [word], term) == Occurrences(l, words, term) + IsTerm(l, word, term)
  {
    SumAppend(words, word, (w: string) => IsTerm(l, w, term));
  }

  /** The index after these words were counted into it. */
  ghost predicate Indexed(l: Language, was: map<string, nat>, index: map<string, nat>, words: seq<string>) {
    && (forall t :: t in index <==> t in was || Occurrences(l, words, t) > 0)
    && (forall t :: CountIn(index, t) == CountIn(was, t) + Occurrences(l, words, t))
  }

  lemma IndexTerm(l: Language, was: map<string, nat>, index: map<string, nat>, words: seq<string>, word: string,
      term: string)
    requires Indexed(l, was, index, words) && TermOf(l, word) == Some(term)
    ensures Indexed(l, was, index[term := CountIn(index, term) + 1], words + [word])
  {
    forall t
      ensures Occurrences(l, words + [word], t) == Occurrences(l, words, t) + if t == term then 1 else 0
    {
      OccurrencesAppend(l, words, word, t);
    }
  }

  lemma SkipWord(l: Language, was: map<string, nat>, index: map<string, nat>, words: seq<string>, word: string)
    requires Indexed(l, was, index, words) && TermOf(l, word) == None
    ensures Indexed(l, was, index, words + [word])
  {
    forall t
      ensures Occurrences(l, words + [word], t) == Occurrences(l, words, t)
    {
      OccurrencesAppend(l, words, word, t);
    }
  }

  // ----- the filters in plain terms -----

  ghost function From(s: string, bound: int): set<nat> {
    set i: nat | i < |s| && s[i] as int >= bound
  }

  /** The length in UTF-8: one byte for each character, and one more at each of the three bounds. */
  ghost function Utf8Length(s: string): nat {
    |s| + |From(s, 128)| + |From(s, 2048)| + |From(s, 65536)|
  }

  lemma FromAppend(s: string, c: char, bound: int)
    ensures |From(s + [c], bound)| == |From(s, bound)| + if c as int >= bound then 1 else 0
  {
    assert From(s + [c], bound) == if c as int >= bound then From(s, bound) + {|s|} else From(s, bound);
  }

  lemma {:induction false} BytesConcat(s: string, t: string)
    ensures Bytes(s + t) == Bytes(s) + Bytes(t)
  {
    if s == "" {
      assert s + t == t;
    } else {
      assert (s + t)[1..] == s[1..] + t;
      BytesConcat(s[1..], t);
    }
  }

  lemma {:induction false} BytesAreUtf8(s: string)
    ensures Bytes(s) == Utf8Length(s)
  {
    if s == "" {
    } else {
      var front, c := s[..|s| - 1], s[|s| - 1];
      assert s == front + [c];
      BytesAreUtf8(front);
      BytesConcat(front, [c]);
      FromAppend(front, c, 128);
      FromAppend(front, c, 2048);
      FromAppend(front, c, 65536);
    }
  }

  /** Cleaning works character by character, keeps letters and numbers and drops everything else. */
  lemma {:induction false} CleanedKeeps(l: Language, s: string, t: string, c: char)
    ensures Cleaned(l, s + t) == Cleaned(l, s) + Cleaned(l, t)
    ensures Cleaned(l, [c]) == if l.isLetter(c) || l.isNumber(c) then [c] else ""
  {
    if s == "" {
      assert s + t == t;
    } else {
      assert (s + t)[1..] == s[1..] + t;
      CleanedKeeps(l, s[1..], t, c);
    }
  }

  /** Lower-cased it is no stopword, and cleaned and stemmed it is the term, of one to fifty bytes. */
  ghost predicate CountedAs(l: Language, word: string, term: string) {
    && l.toLower(word) !in l.stopwords
    && term == l.stem(Cleaned(l, l.toLower(word)))
    && 1 <= Utf8Length(term) <= 50
  }

  lemma TermIsCounted(l: Language, word: string, term: string)
    ensures TermOf(l, word) == Some(term) <==> CountedAs(l, word, term)
  {
    BytesAreUtf8(term);
  }

  ghost function CountedAt(l: Language, words: seq<string>, term: string): set<nat> {
    set i: nat | i < |words| && CountedAs(l, words[i], term)
  }

  lemma OneWordMore(l: Language, words: seq<string>, word: string, term: string)
    ensures |CountedAt(l, words + [word], term)|
         == |CountedAt(l, words, term)| + if CountedAs(l, word, term) then 1 else 0
  {
    var before := CountedAt(l, words, term);
    assert CountedAt(l, words + [word], term) == if CountedAs(l, word, term) then before + {|words|} else before;
  }

  lemma {:induction false} OccurrencesAreWords(l: Language, words: seq<string>, term: string)
    ensures Occurrences(l, words, term) == |CountedAt(l, words, term)|
  {
    if words == [] {
    } else {
      var n := |words| - 1;
      assert words == words[..n] + [words[n]];
      OccurrencesAreWords(l, words[..n], term);
      OccurrencesAppend(l, words[..n], words[n], term);
      TermIsCounted(l, words[n], term);
      OneWordMore(l, words[..n], words[n], term);
    }
  }

  /** Each term gains one count for each word counted as it, and becomes a key if there is such a word. */
  ghost predicate Counted(l: Language, was: map<string, nat>, index: map<string, nat>, words: seq<string>) {
    forall t ::
      && (t in index <==> t in was || exists i :: 0 <= i < |words| && CountedAs(l, words[i], t))
      && (t in index ==> index[t] == (if t in was then was[t] else 0) + |CountedAt(l, words, t)|)
  }

  lemma IndexedIsCounted(l: Language, was: map<string, nat>, index: map<string, nat>, words: seq<string>)
    requires Indexed(l, was, index, words)
    ensures Counted(l, was, index, words)
  {
    forall t
      ensures t in index <==> t in was || exists i :: 0 <= i < |words| && CountedAs(l, words[i], t)
      ensures t in index ==> index[t] == (if t in was then was[t] else 0) + |CountedAt(l, words, t)|
    {
      OccurrencesAreWords(l, words, t);
      assert CountIn(index, t) == CountIn(was, t) + Occurrences(l, words, t);
      if i :| 0 <= i < |words| && CountedAs(l, words[i], t) {
        assert i in CountedAt(l, words, t);
      } else {
        assert CountedAt(l, words, t) == {};
      }
    }
  }

  class Document {
    var invertedIndex: map<string, nat>

    constructor ()
      ensures invertedIndex == map[]
    {
      invertedIndex := map[];
    }

    /** Each term gains as many counts as it has occurrences among the tokens of the text. */
    method BuildIndex(l: Language, text: string)
      modifies this
      ensures Indexed(l, old(invertedIndex), invertedIndex, Tokenize(l, text))
      ensures Counted(l, old(invertedIndex), invertedIndex, Tokenize(l, text))
    {
      var words := Tokenize(l, text);
      for i := 0 to |words|
        invariant Indexed(l, old(invertedIndex), invertedIndex, words[..i])
      {
        match TermOf(l, words[i]) {
          case None => SkipWord(l, old(invertedIndex), invertedIndex, words[..i], words[i]);
          case Some(term) => IndexTerm(l, old(invertedIndex), invertedIndex, words[..i], words[i], term);
        }
        assert words[..i + 1] == words[..i] + [words[i]];
        var word := l.toLower(words[i]);
        if word in l.stopwords { continue; }
        word := Stemmed(l, word);
        if word == "" { continue; }
        if Bytes(word) > MAX_TERM_BYTES { continue; }
        invertedIndex := invertedIndex[word := CountIn(invertedIndex, word) + 1];
      }
      assert words[..|words|] == words;
      IndexedIsCounted(l, old(invertedIndex), invertedIndex, words);
    }
  }

  // ----- counts are numbers of runs -----

  predicate IsTermRun(l: Language, text: string, r: (nat, nat), term: string) {
    r.0 <= r.1 <= |text| && TermOf(l, text[r.0..r.1]) == Some(term)
  }

  ghost function TermRunsAmong(l: Language, text: string, runs: seq<(nat, nat)>, term: string): set<(nat, nat)> {
    set r | r in runs && IsTermRun(l, text, r, term)
  }

  /** The maximal letter and number runs of the text that are counted as the term. */
  ghost function TermRuns(l: Language, text: string, term: string): set<(nat, nat)> {
    TermRunsAmong(l, text, Runs(text, 0, Separator(l)), term)
  }

  lemma TermRunsAreMaximal(l: Language, text: string, term: string)
    ensures forall i: nat, j: nat :: (i, j) in TermRuns(l, text, term) <==>
              MaximalRun(text, Separator(l), i, j) && TermOf(l, text[i..j]) == Some(term)
  {
    FieldsAreMaximalRuns(text, Separator(l));
  }

  lemma RunsDistinct(s: string, sep: char -> bool)
    ensures Distinct(Runs(s, 0, sep))
  {
    FieldsAreMaximalRuns(s, sep);
    var runs := Runs(s, 0, sep);
    forall i, j | 0 <= i < j < |runs|
      ensures runs[i] != runs[j]
    {
      assert MaximalRun(s, sep, runs[i].0, runs[i].1);
    }
  }

  lemma OneRunMore(l: Language, text: string, runs: seq<(nat, nat)>, r: (nat, nat), term: string)
    requires r !in runs
    ensures |TermRunsAmong(l, text, runs + [r], term)|
         == |TermRunsAmong(l, text, runs, term)| + if IsTermRun(l, text, r, term) then 1 else 0
  {
    var before := TermRunsAmong(l, text, runs, term);
    assert TermRunsAmong(l, text, runs + [r], term) == if IsTermRun(l, text, r, term) then before + {r} else before;
  }

  /** Words and runs are counted alike. */
  lemma {:induction false} CountRuns(l: Language, text: string, runs: seq<(nat, nat)>, words: seq<string>, term: string)
    requires Spells(text, runs, words) && Distinct(runs)
    ensures Occurrences(l, words, term) == |TermRunsAmong(l, text, runs, term)|
  {
    if runs == [] {
      assert TermRunsAmong(l, text, runs, term) == {};
    } else {
      var n := |runs| - 1;
      CountRuns(l, text, runs[..n], words[..n], term);
      assert words == words[..n] + [words[n]] && runs == runs[..n] + [runs[n]];
      OccurrencesAppend(l, words[..n], words[n], term);
      OneRunMore(l, text, runs[..n], runs[n], term);
    }
  }

  /** A term occurs as often as there are maximal runs that survive the filters and stem to it. */
  lemma CountsAreMaximalRuns(l: Language, text: string, term: string)
    ensures Occurrences(l, Tokenize(l, text), term) == |TermRuns(l, text, term)|
  {
    FieldsAreMaximalRuns(text, Separator(l));
    RunsDistinct(text, Separator(l));
    CountRuns(l, text, Runs(text, 0, Separator(l)), Tokenize(l, text), term);
  }

  // ----- totals and order -----

  /** The counts of all terms add up to the number of surviving words. */
  lemma {:induction false} CountsAddUp(l: Language, words: seq<string>, terms: set<string>)
    requires forall w :: w in words && TermOf(l, w) != None ==> TermOf(l, w).value in terms
    ensures SumOver(terms, (t: string) => Occurrences(l, words, t)) == Survivors(l, words)
  {
    var f := (t: string) => Occurrences(l, words, t);
    if words == [] {
      SumOverZero(terms, f);
    } else {
      var n := |words| - 1;
      var before, word := words[..n], words[n];
      assert words == before + [word];
      CountsAddUp(l, before, terms);
      var g := (t: string) => Occurrences(l, before, t);
      forall t
        ensures f(t) == g(t) + IsTerm(l, word, t)
      {
        OccurrencesAppend(l, before, word, t);
      }
      SumAppend(before, word, (w: string) => Survives(l, w));
      assert word in words;
      match TermOf(l, word)
      case None => SumOverEqual(terms, f, g);
      case Some(term) => SumOverBump(terms, f, g, term);
    }
  }

  lemma {:induction false} Occurs(l: Language, words: seq<string>, word: string, term: string)
    requires word in words && TermOf(l, word) == Some(term)
    ensures Occurrences(l, words, term) > 0
  {
    var n := |words| - 1;
    if words[n] != word {
      assert word in words[..n];
      Occurs(l, words[..n], word, term);
    }
  }

  /** The counts in the index of a fresh document add up to the number of surviving tokens. */
  lemma FreshIndexTotal(l: Language, index: map<string, nat>, words: seq<string>)
    requires Indexed(l, map[], index, words)
    ensures SumOver(index.Keys, (t: string) => CountIn(index, t)) == Survivors(l, words)
  {
    forall w | w in words && TermOf(l, w) != None
      ensures TermOf(l, w).value in index.Keys
    {
      Occurs(l, words, w, TermOf(l, w).value);
    }
    CountsAddUp(l, words, index.Keys);
    SumOverEqual(index.Keys, (t: string) => CountIn(index, t), (t: string) => Occurrences(l, words, t));
  }

  /** The order of the words does not matter. */
  lemma CountsIgnoreOrder(l: Language, words: seq<string>, other: seq<string>, term: string)
    requires multiset(words) == multiset(other)
    ensures Occurrences(l, words, term) == Occurrences(l, other, term)
  {
    SumPermutation(words, other, (w: string) => IsTerm(l, w, term));
  }
}
