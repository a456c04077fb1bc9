/** The store's sorted queries (`.sort({...})`), reduced to sorting ids by a two-part key. */
module Ordering {
  import opened Base

  /** A sort key: `primary`, then `secondary`, then the id (insertion order breaks ties). */
  datatype Key = Key(primary: int, secondary: int, id: nat)

  predicate Le(a: Key, b: Key) {
    || a.primary < b.primary
    || (a.primary == b.primary && a.secondary < b.secondary)
    || (a.primary == b.primary && a.secondary == b.secondary && a.id <= b.id)
  }

  predicate Sorted(s: seq<Key>) {
    forall i, j :: 0 <= i < j < |s| ==> Le(s[i], s[j])
  }

  function Insert(x: Key, s: seq<Key>): (r: seq<Key>)
    requires Sorted(s)
    ensures Sorted(r)
    ensures multiset(r) == multiset(s) + multiset{x}
  {
    if s == [] then [x]
    else if Le(x, s[0]) then
      assert s == [s[0]] + s[1..];
      [x] + s
    else
      var rest := Insert(x, s[1..]);
      assert s == [s[0]] + s[1..];
      AboveAll(s[0], x, s[1..], rest);
      [s[0]] + rest
  }

  lemma AboveAll(a: Key, x: Key, s: seq<Key>, r: seq<Key>)
    requires Le(a, x)
    requires Sorted([a] + s)
    requires Sorted(r)
    requires multiset(r) == multiset(s) + multiset{x}
    ensures Sorted([a] + r)
  {
    forall j | 0 <= j < |r|
      ensures Le(a, r[j])
    {
      assert r[j] in multiset(r);
      if r[j] != x {
        assert r[j] in multiset(s);
        var k :| 0 <= k < |s| && s[k] == r[j];
        assert ([a] + s)[0] == a && ([a] + s)[k + 1] == s[k];
      }
    }
    forall i, j | 0 <= i < j < |[a] + r|
      ensures Le(([a] + r)[i], ([a] + r)[j])
    {
      if i > 0 {
        assert ([a] + r)[i] == r[i - 1];
      }
      assert ([a] + r)[j] == r[j - 1];
    }
  }

  /** Insertion sort: a sorted permutation of `s`. */
  function Sort(s: seq<Key>): (r: seq<Key>)
    ensures Sorted(r)
    ensures multiset(r) == multiset(s)
  {
    if s == [] then []
    else
      assert s == [s[0]] + s[1..];
      Insert(s[0], Sort(s[1..]))
  }

  /** Sorting keeps the length and exactly the keys it was given. */
  lemma SortMembers(s: seq<Key>)
    ensures |Sort(s)| == |s|
    ensures forall k :: k in Sort(s) <==> k in s
  {
    var r := Sort(s);
    assert |multiset(r)| == |multiset(s)|;
    forall k
      ensures k in r <==> k in s
    {
      assert k in r <==> k in multiset(r);
      assert k in s <==> k in multiset(s);
    }
  }

  /** The ids of `ks`, in order. */
  function Ids(ks: seq<Key>): (r: seq<nat>)
    ensures |r| == |ks|
    ensures forall i :: 0 <= i < |ks| ==> r[i] == ks[i].id
  {
    if ks == [] then [] else [ks[0].id] + Ids(ks[1..])
  }
}
