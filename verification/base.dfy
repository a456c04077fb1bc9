/** Identifiers, the optional value, and the array helpers the handlers share. */
module Base {

  /** A value that may be absent (`null`/`undefined` in the backend). */
  datatype Option<+T> = None | Some(value: T) {
    function GetOr(default: T): T {
      if Some? then value else default
    }
  }

  /** Document ids. The store hands out ids in increasing order, as ObjectIds grow with insertion. */
  type UserId = nat
  type ChannelId = nat
  type MsgId = nat

  /** Milliseconds since the epoch. */
  type Time = int

  /** An invite token: an opaque random string. */
  type Token = string

  predicate NoDup<T(==,!new)>(s: seq<T>) {
    forall i, j :: 0 <= i < j < |s| ==> s[i] != s[j]
  }

  /** The index of the first occurrence of `x` in `s`. */
  function FirstAt<T(==)>(s: seq<T>, x: T): (k: nat)
    requires x in s
    ensures k < |s| && s[k] == x && forall i :: 0 <= i < k ==> s[i] != x
  {
    if s[0] == x then 0 else 1 + FirstAt(s[1..], x)
  }

  /** The first occurrence is the only index holding `x` with no `x` before it. */
  lemma FirstAtIs<T>(s: seq<T>, x: T, k: nat)
    requires k < |s| && s[k] == x && forall i :: 0 <= i < k ==> s[i] != x
    ensures FirstAt(s, x) == k
  {
    var f := FirstAt(s, x);
    if f < k {
      assert false;
    }
  }

  /** Dropping the last element of `s` moves no first occurrence of what is left. */
  lemma FirstAtInit<T>(s: seq<T>, y: T)
    requires |s| > 0 && y in s[..|s| - 1]
    ensures FirstAt(s, y) == FirstAt(s[..|s| - 1], y)
  {
    var init := s[..|s| - 1];
    var k := FirstAt(init, y);
    assert forall i :: 0 <= i < k ==> s[i] == init[i];
    FirstAtIs(s, y, k);
  }

  /** `[...new Set(s)]`: the first occurrence of every element, in the order of those occurrences. */
  function Dedup<T(==,!new)>(s: seq<T>): (r: seq<T>)
    ensures NoDup(r)
    ensures forall x :: x in r <==> x in s
    ensures forall i, j :: 0 <= i < j < |r| ==> FirstAt(s, r[i]) < FirstAt(s, r[j])
    ensures |r| <= |s|
  {
    if s == [] then []
    else
      var init := s[..|s| - 1];
      var p := Dedup(init);
      var x := s[|s| - 1];
      assert forall y :: y in s <==> y in init || y == x;
      assert forall i :: 0 <= i < |p| ==> FirstAt(s, p[i]) == FirstAt(init, p[i]) by {
        forall i | 0 <= i < |p| { FirstAtInit(s, p[i]); }
      }
      if x in p then p
      else
        assert FirstAt(s, x) == |s| - 1;
        p + [x]
  }

  lemma {:induction false} DedupOfDistinct<T(!new)>(s: seq<T>)
    requires NoDup(s)
    ensures Dedup(s) == s
  {
    if s != [] {
      var init := s[..|s| - 1];
      DedupOfDistinct(init);
      assert s[|s| - 1] !in init;
      assert init + [s[|s| - 1]] == s;
    }
  }

  /** Mongo's `$pull`: every occurrence of `x` removed, the rest in order. */
  function RemoveAll<T(==,!new)>(s: seq<T>, x: T): (r: seq<T>)
    ensures forall y :: y in r <==> y in s && y != x
    ensures |r| <= |s|
    ensures NoDup(s) ==> NoDup(r)
  {
    if s == [] then []
    else
      var rest := RemoveAll(s[1..], x);
      NoDupSplit(s);
      assert forall y :: y in s <==> y == s[0] || y in s[1..];
      if s[0] == x then rest else [s[0]] + rest
  }

  /** `s.filter(id => !t.includes(id))`. */
  function Minus<T(==,!new)>(s: seq<T>, t: seq<T>): (r: seq<T>)
    ensures forall y :: y in r <==> y in s && y !in t
    ensures NoDup(s) ==> NoDup(r)
  {
    if s == [] then []
    else
      var rest := Minus(s[1..], t);
      NoDupSplit(s);
      assert forall y :: y in s <==> y == s[0] || y in s[1..];
      if s[0] in t then rest else [s[0]] + rest
  }

  /** The elements of `s` that are keys of `m`, in order (what `populate` or a lookup by id keeps). */
  function Known<K(==,!new), V>(s: seq<K>, m: map<K, V>): (r: seq<K>)
    ensures forall y :: y in r <==> y in s && y in m
    ensures NoDup(s) ==> NoDup(r)
  {
    if s == [] then []
    else
      var rest := Known(s[1..], m);
      NoDupSplit(s);
      assert forall y :: y in s <==> y == s[0] || y in s[1..];
      if s[0] in m then [s[0]] + rest else rest
  }

  /** Writing back the value a map already holds leaves the map as it was. */
  lemma SetSame<K, V>(m: map<K, V>, k: K, v: V)
    requires k in m && m[k] == v
    ensures m[k := v] == m
  {
  }

  lemma NoDupSplit<T(!new)>(s: seq<T>)
    requires s != []
    ensures NoDup(s) <==> s[0] !in s[1..] && NoDup(s[1..])
  {
    if s[0] !in s[1..] && NoDup(s[1..]) {
      forall i, j | 0 <= i < j < |s|
        ensures s[i] != s[j]
      {
        if i > 0 {
          assert s[i] == s[1..][i - 1] && s[j] == s[1..][j - 1];
        } else {
          assert s[j] == s[1..][j - 1];
        }
      }
    }
  }

  /** A sequence has at least as many positions as distinct elements, and exactly as many iff no element repeats. */
  lemma {:induction false} DistinctElements<T(!new)>(s: seq<T>)
    ensures |set x | x in s| <= |s|
    ensures |set x | x in s| == |s| <==> NoDup(s)
  {
    if s != [] {
      var init := s[..|s| - 1];
      var x := s[|s| - 1];
      DistinctElements(init);
      assert (set y | y in s) == (set y | y in init) + {x};
      if x in init {
        assert (set y | y in s) == (set y | y in init);
        var k :| 0 <= k < |init| && init[k] == x;
        assert s[k] == s[|s| - 1];
      } else {
        assert NoDup(s) <==> NoDup(init);
      }
    }
  }
}
