/** Tables that group stored items by a key, keeping the order of insertion inside each group. */
module Grouping {
  import opened Lists

  /** The items whose part is key, in order of insertion. */
  function Select<H(!new), K(==)>(stored: seq<H>, part: H -> K, key: K): (r: seq<H>)
    ensures forall c :: c in r <==> c in stored && part(c) == key
  {
    if stored == [] then []
    else
      var last := stored[|stored| - 1];
      Select(stored[..|stored| - 1], part, key) + if part(last) == key then [last] else []
  }

  function Lookup<H, K>(table: map<K, seq<H>>, key: K): seq<H> {
    if key in table then table[key] else []
  }

  /** The table holds exactly the stored items, grouped by part. */
  ghost predicate Groups<H(!new), K(!new)>(table: map<K, seq<H>>, stored: seq<H>, part: H -> K) {
    forall key :: Lookup(table, key) == Select(stored, part, key)
  }

  lemma SelectAppend<H(!new), K>(stored: seq<H>, h: H, part: H -> K, key: K)
    ensures Select(stored + [h], part, key) == Select(stored, part, key) + if part(h) == key then [h] else []
  {
    assert (stored + [h])[..|stored|] == stored;
  }

  lemma GroupsAppend<H(!new), K(!new)>(table: map<K, seq<H>>, stored: seq<H>, part: H -> K, h: H)
    requires Groups(table, stored, part)
    ensures Groups(table[part(h) := Lookup(table, part(h)) + [h]], stored + [h], part)
  {
    var table' := table[part(h) := Lookup(table, part(h)) + [h]];
    forall key: K
      ensures Lookup(table', key) == Select(stored + [h], part, key)
    {
      SelectAppend(stored, h, part, key);
      assert Lookup(table, key) == Select(stored, part, key);
    }
  }

  /** Without duplicates among the stored items there are none in a group. */
  lemma {:induction false} SelectDistinct<H(!new), K>(stored: seq<H>, part: H -> K, key: K)
    requires Distinct(stored)
    ensures Distinct(Select(stored, part, key))
  {
    if stored == [] {
    } else {
      var n := |stored| - 1;
      SelectDistinct(stored[..n], part, key);
      assert stored[n] !in stored[..n];
    }
  }
}
