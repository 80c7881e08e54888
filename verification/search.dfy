/**
 * The search box of scene-boilerplate.js: `updateSuggestions` filters
 * `searchableObjects` (every star, planet and moon, in creation order) by a
 * case-insensitive substring match on the name and by the type selector.
 */
module Search {
  import opened Wrappers

  datatype Kind = Star | Planet | Moon

  /** The type selector: 'all', or one object type. */
  datatype Filter = All | Only(kind: Kind)

  /** An entry of `searchableObjects`; `id` stands for the scene object it refers to. */
  datatype Searchable = Searchable(name: string, kind: Kind, id: nat)

  /** `toLowerCase` on one character, for the ASCII letters the catalogue names use. */
  function LowerChar(c: char): char {
    if 'A' <= c <= 'Z' then (c as int - 'A' as int + 'a' as int) as char else c
  }

  function Lower(s: string): (r: string)
    ensures |r| == |s|
    ensures forall i :: 0 <= i < |s| ==> r[i] == LowerChar(s[i])
  {
    if |s| == 0 then [] else [LowerChar(s[0])] + Lower(s[1..])
  }

  /** Lower-casing twice is lower-casing once. */
  lemma LowerIdempotent(s: string)
    ensures Lower(Lower(s)) == Lower(s)
  {
    var l := Lower(s);
    assert forall i :: 0 <= i < |l| ==> Lower(l)[i] == l[i];
  }

  /** `s.includes(q)`: `q` starts at position 0 of `s`, or somewhere in the rest. */
  predicate Contains(s: string, q: string)
  {
    (|q| <= |s| && s[..|q|] == q) || (|s| > 0 && Contains(s[1..], q))
  }

  /** `q` occurs in `s` starting at position `i`. */
  predicate OccursAt(s: string, q: string, i: int) {
    0 <= i && i + |q| <= |s| && s[i..i + |q|] == q
  }

  /** The recursive definition agrees with "there is a position where `q` occurs". */
  lemma {:induction false} ContainsIff(s: string, q: string)
    ensures Contains(s, q) <==> exists i :: OccursAt(s, q, i)
  {
    if Contains(s, q) {
      if |q| <= |s| && s[..|q|] == q {
        assert OccursAt(s, q, 0);
      } else {
        ContainsIff(s[1..], q);
        var i :| OccursAt(s[1..], q, i);
        assert s[1..][i..i + |q|] == s[i + 1..i + 1 + |q|];
        assert OccursAt(s, q, i + 1);
      }
    }
    if exists i :: OccursAt(s, q, i) {
      var i :| OccursAt(s, q, i);
      if i > 0 {
        assert s[1..][i - 1..i - 1 + |q|] == s[i..i + |q|];
        assert OccursAt(s[1..], q, i - 1);
        ContainsIff(s[1..], q);
      } else {
        assert s[..|q|] == q;
      }
    }
  }

  /** The test applied to each entry: lower-cased name contains the lower-cased query, and the type passes the selector. */
  predicate Matches(item: Searchable, query: string, filter: Filter) {
    Contains(Lower(item.name), Lower(query)) && (filter.All? || item.kind == filter.kind)
  }

  /** `searchableObjects.filter(...)`: the matching entries, in their original order. */
  function Keep(items: seq<Searchable>, query: string, filter: Filter): (r: seq<Searchable>)
    ensures |r| <= |items|
    ensures forall x :: x in r <==> x in items && Matches(x, query, filter)
  {
    if |items| == 0 then []
    else (if Matches(items[0], query, filter) then [items[0]] else []) + Keep(items[1..], query, filter)
  }

  /**
   * `updateSuggestions`: nothing for an empty query; otherwise exactly the
   * entries that match, in the order of `searchableObjects`.
   */
  function Suggestions(items: seq<Searchable>, query: string, filter: Filter): (r: seq<Searchable>)
    ensures |query| == 0 ==> r == []
    ensures forall x :: x in r ==> x in items && Matches(x, query, filter)
    ensures |query| > 0 ==> forall x :: x in items && Matches(x, query, filter) ==> x in r
  {
    if |Lower(query)| == 0 then [] else Keep(items, query, filter)
  }

  /** The filter works entry by entry: it distributes over concatenation, so it keeps the original order. */
  lemma {:induction false} KeepDistributes(a: seq<Searchable>, b: seq<Searchable>, query: string, filter: Filter)
    ensures Keep(a + b, query, filter) == Keep(a, query, filter) + Keep(b, query, filter)
  {
    if |a| == 0 {
      assert a + b == b;
    } else {
      assert (a + b)[1..] == a[1..] + b;
      KeepDistributes(a[1..], b, query, filter);
    }
  }

  /** Filtering the 'all' results by type gives the results for that type. */
  lemma {:induction false} NarrowingByType(items: seq<Searchable>, query: string, k: Kind)
    ensures Keep(Keep(items, query, All), query, Only(k)) == Keep(items, query, Only(k))
  {
    if |items| > 0 {
      NarrowingByType(items[1..], query, k);
      var head := if Matches(items[0], query, All) then [items[0]] else [];
      KeepDistributes(head, Keep(items[1..], query, All), query, Only(k));
      if |head| == 1 {
        assert head[1..] == [];
      }
    }
  }

  /** Repeating the search on its own results changes nothing. */
  lemma {:induction false} KeepIdempotent(items: seq<Searchable>, query: string, filter: Filter)
    ensures Keep(Keep(items, query, filter), query, filter) == Keep(items, query, filter)
  {
    if |items| > 0 {
      KeepIdempotent(items[1..], query, filter);
      var head := if Matches(items[0], query, filter) then [items[0]] else [];
      KeepDistributes(head, Keep(items[1..], query, filter), query, filter);
      if |head| == 1 {
        assert head[1..] == [];
      }
    }
  }

  /** The match ignores case on both sides. */
  lemma MatchIgnoresCase(item: Searchable, query: string, filter: Filter)
    ensures Matches(item, Lower(query), filter) <==> Matches(item, query, filter)
    ensures Matches(item.(name := Lower(item.name)), query, filter) <==> Matches(item, query, filter)
  {
    LowerIdempotent(query);
    LowerIdempotent(item.name);
  }

  /**
   * `searchableObjects.find(o => o.name === name)`, used when a name in the
   * pinned list is clicked: the position of the first entry with that name.
   */
  function FindByName(items: seq<Searchable>, name: string): (r: Option<nat>)
    ensures r.Some? ==> r.value < |items| && items[r.value].name == name
    ensures r.Some? ==> forall j :: 0 <= j < r.value ==> items[j].name != name
    ensures r.None? <==> forall j :: 0 <= j < |items| ==> items[j].name != name
  {
    if |items| == 0 then None
    else if items[0].name == name then Some(0)
    else match FindByName(items[1..], name)
      case None => None
      case Some(k) => Some(k + 1)
  }
}
