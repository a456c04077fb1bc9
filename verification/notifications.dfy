/** The in-memory push-subscription registry: one subscription per user, the latest registration winning. */
module Notifications {
  import opened Base

  /** A registry entry `{userId, subscription}`; the subscription object itself is opaque here. */
  datatype Entry<S> = Entry(userId: UserId, subscription: S)

  /** The entries of user `v`, in registry order. */
  function Of<S(!new)>(l: seq<Entry<S>>, v: UserId): (r: seq<Entry<S>>)
    ensures |r| <= |l|
  {
    if l == [] then []
    else (if l[0].userId == v then [l[0]] else []) + Of(l[1..], v)
  }

  /** `l.filter(sub => sub.userId !== v)`. */
  function Without<S(!new)>(l: seq<Entry<S>>, v: UserId): (r: seq<Entry<S>>)
    ensures |r| <= |l|
  {
    if l == [] then []
    else (if l[0].userId != v then [l[0]] else []) + Without(l[1..], v)
  }

  /** Both projections distribute over concatenation. */
  lemma {:induction false} OfConcat<S(!new)>(a: seq<Entry<S>>, b: seq<Entry<S>>, v: UserId)
    ensures Of(a + b, v) == Of(a, v) + Of(b, v)
  {
    if a == [] {
      assert a + b == b;
    } else {
      var head := if a[0].userId == v then [a[0]] else [];
      calc {
        Of(a + b, v);
      == { assert (a + b)[0] == a[0]; assert (a + b)[1..] == a[1..] + b; }
        head + Of(a[1..] + b, v);
      == { OfConcat(a[1..], b, v); }
        head + (Of(a[1..], v) + Of(b, v));
      == { SeqAssoc(head, Of(a[1..], v), Of(b, v)); }
        (head + Of(a[1..], v)) + Of(b, v);
      }
    }
  }

  lemma {:induction false} WithoutConcat<S(!new)>(a: seq<Entry<S>>, b: seq<Entry<S>>, v: UserId)
    ensures Without(a + b, v) == Without(a, v) + Without(b, v)
  {
    if a == [] {
      assert a + b == b;
    } else {
      var head := if a[0].userId != v then [a[0]] else [];
      calc {
        Without(a + b, v);
      == { assert (a + b)[0] == a[0]; assert (a + b)[1..] == a[1..] + b; }
        head + Without(a[1..] + b, v);
      == { WithoutConcat(a[1..], b, v); }
        head + (Without(a[1..], v) + Without(b, v));
      == { SeqAssoc(head, Without(a[1..], v), Without(b, v)); }
        (head + Without(a[1..], v)) + Without(b, v);
      }
    }
  }

  lemma SeqAssoc<T>(x: seq<T>, y: seq<T>, z: seq<T>)
    ensures x + (y + z) == (x + y) + z
  {
  }

  lemma ProjectConcat<S(!new)>(a: seq<Entry<S>>, b: seq<Entry<S>>, v: UserId)
    ensures Of(a + b, v) == Of(a, v) + Of(b, v)
    ensures Without(a + b, v) == Without(a, v) + Without(b, v)
  {
    OfConcat(a, b, v);
    WithoutConcat(a, b, v);
  }

  /** Removing one user's entries leaves every other user's entries as they were. */
  lemma {:induction false} OfWithout<S(!new)>(l: seq<Entry<S>>, u: UserId, v: UserId)
    ensures Of(Without(l, u), v) == if v == u then [] else Of(l, v)
    ensures Without(Without(l, u), u) == Without(l, u)
  {
    if l != [] {
      OfWithout(l[1..], u, v);
      var head := if l[0].userId != u then [l[0]] else [];
      ProjectConcat(head, Without(l[1..], u), v);
      ProjectConcat(head, Without(l[1..], u), u);
    }
  }

  /** `addSubscription(u, s)`: drop `u`'s entries, then append the new one. */
  function AddSubscription<S(!new)>(l: seq<Entry<S>>, u: UserId, s: S): (r: seq<Entry<S>>)
    ensures |r| > 0 && r[|r| - 1] == Entry(u, s)
    ensures Of(r, u) == [Entry(u, s)]
    ensures forall v :: v != u ==> Of(r, v) == Of(l, v)
    ensures Without(r, u) == Without(l, u)
  {
    var r := Without(l, u) + [Entry(u, s)];
    forall v
      ensures Of(r, v) == (if v == u then [Entry(u, s)] else Of(l, v))
    {
      ProjectConcat(Without(l, u), [Entry(u, s)], v);
      OfWithout(l, u, v);
    }
    ProjectConcat(Without(l, u), [Entry(u, s)], u);
    OfWithout(l, u, u);
    r
  }

  /** Every user holds at most one entry. */
  ghost predicate OnePerUser<S(!new)>(l: seq<Entry<S>>) {
    forall v :: |Of(l, v)| <= 1
  }

  /** Registering keeps at most one entry per user. */
  lemma AddKeepsOnePerUser<S(!new)>(l: seq<Entry<S>>, u: UserId, s: S)
    requires OnePerUser(l)
    ensures OnePerUser(AddSubscription(l, u, s))
  {
    var r := AddSubscription(l, u, s);
    forall v
      ensures |Of(r, v)| <= 1
    {
      if v != u {
        assert Of(r, v) == Of(l, v);
      }
    }
  }

  /** The last registration wins: registering twice is registering the second subscription once. */
  lemma LastRegistrationWins<S(!new)>(l: seq<Entry<S>>, u: UserId, s1: S, s2: S)
    ensures AddSubscription(AddSubscription(l, u, s1), u, s2) == AddSubscription(l, u, s2)
  {
    var r1 := AddSubscription(l, u, s1);
    assert Without(r1, u) == Without(l, u);
  }
}
