/** Python's `sorted(xs, key=...)` and `list.sort(key=...)`: a stable sort. It is modelled as an
    insertion sort over a comparison `le`, where `le(a, b)` means "the key of `a` is at most the
    key of `b`" (or "at least", for `reverse=True`, which Python also keeps stable). */
module Sorting {

  /** `le` compares every two elements of `s` one way or the other. */
  ghost predicate TotalOn<T>(le: (T, T) -> bool, s: seq<T>) {
    forall a, b | a in s && b in s :: le(a, b) || le(b, a)
  }

  ghost predicate TransitiveOn<T>(le: (T, T) -> bool, s: seq<T>) {
    forall a, b, c | a in s && b in s && c in s :: le(a, b) && le(b, c) ==> le(a, c)
  }

  ghost predicate SortedBy<T>(le: (T, T) -> bool, s: seq<T>) {
    forall i, j | 0 <= i < j < |s| :: le(s[i], s[j])
  }

  /** The elements of `s` whose key equals the key of `z`, in their order in `s`. */
  function Ties<T>(le: (T, T) -> bool, s: seq<T>, z: T): seq<T> {
    if s == [] then []
    else (if le(s[0], z) && le(z, s[0]) then [s[0]] else []) + Ties(le, s[1..], z)
  }

  /** Puts `x` in front of the first element of the sorted `t` that it does not exceed, so
      that `x` stays ahead of every element with an equal key. */
  function Insert<T>(le: (T, T) -> bool, x: T, t: seq<T>): (r: seq<T>)
    ensures |r| == |t| + 1 && multiset(r) == multiset([x] + t)
  {
    if t == [] || le(x, t[0]) then [x] + t
    else
      assert [x] + t == [x] + [t[0]] + t[1..];
      [t[0]] + Insert(le, x, t[1..])
  }

  /** A stable sort of `s` by `le`; the result holds the same elements, as many times each. */
  function SortBy<T>(le: (T, T) -> bool, s: seq<T>): (r: seq<T>)
    ensures |r| == |s| && multiset(r) == multiset(s)
  {
    if s == [] then []
    else
      assert s == [s[0]] + s[1..];
      Insert(le, s[0], SortBy(le, s[1..]))
  }

  lemma SortedTail<T>(le: (T, T) -> bool, t: seq<T>)
    requires SortedBy(le, t) && t != []
    ensures forall y | y in t[1..] :: le(t[0], y)
  {
    forall y | y in t[1..]
      ensures le(t[0], y)
    {
      var j :| 0 <= j < |t[1..]| && t[1..][j] == y;
      assert t[j + 1] == y;
    }
  }

  lemma SortedCons<T>(le: (T, T) -> bool, a: T, u: seq<T>)
    requires SortedBy(le, u) && forall y | y in u :: le(a, y)
    ensures SortedBy(le, [a] + u)
  {
    forall i, j | 0 <= i < j < |[a] + u|
      ensures le(([a] + u)[i], ([a] + u)[j])
    {
      assert ([a] + u)[j] == u[j - 1];
      if i > 0 {
        assert ([a] + u)[i] == u[i - 1];
      }
    }
  }

  lemma {:induction false} InsertSorted<T>(le: (T, T) -> bool, x: T, t: seq<T>)
    requires SortedBy(le, t) && TotalOn(le, [x] + t) && TransitiveOn(le, [x] + t)
    ensures SortedBy(le, Insert(le, x, t))
  {
    if t == [] {
    } else if le(x, t[0]) {
      SortedTail(le, t);
      forall y | y in t
        ensures le(x, y)
      {
        assert y in [x] + t && t[0] in [x] + t && x in [x] + t;
        if y != t[0] {
          assert y in t[1..];
        }
      }
      SortedCons(le, x, t);
    } else {
      assert x in [x] + t && t[0] in [x] + t;
      var t' := t[1..];
      assert forall a | a in [x] + t' :: a in [x] + t;
      InsertSorted(le, x, t');
      var ins := Insert(le, x, t');
      SortedTail(le, t);
      forall y | y in ins
        ensures le(t[0], y)
      {
        assert y in multiset(ins);
        assert y == x || y in t';
      }
      SortedCons(le, t[0], ins);
    }
  }

  /** Under a total preorder, the result is in nondecreasing key order. */
  lemma {:induction false} SortBySorted<T>(le: (T, T) -> bool, s: seq<T>)
    requires TotalOn(le, s) && TransitiveOn(le, s)
    ensures SortedBy(le, SortBy(le, s))
  {
    if s != [] {
      var tail := s[1..];
      assert forall a | a in tail :: a in s;
      SortBySorted(le, tail);
      var st := SortBy(le, tail);
      forall a | a in [s[0]] + st
        ensures a in s
      {
        assert a in multiset([s[0]] + st);
        assert a == s[0] || a in multiset(tail);
      }
      InsertSorted(le, s[0], st);
    }
  }

  lemma TiesCons<T>(le: (T, T) -> bool, a: T, u: seq<T>, z: T)
    ensures Ties(le, [a] + u, z) == (if le(a, z) && le(z, a) then [a] else []) + Ties(le, u, z)
  {
    assert ([a] + u)[1..] == u;
  }

  /** Two prefixes of which one is empty can be swapped. */
  lemma SwapAroundEmpty<T>(a: seq<T>, b: seq<T>, c: seq<T>)
    requires a == [] || b == []
    ensures a + (b + c) == b + (a + c)
  {
    if a == [] {
      assert a + (b + c) == b + c && a + c == c;
    } else {
      assert b + (a + c) == a + c && b + c == c;
    }
  }

  lemma {:induction false} InsertTies<T>(le: (T, T) -> bool, x: T, t: seq<T>, z: T)
    requires TransitiveOn(le, [x, z] + t)
    ensures Ties(le, Insert(le, x, t), z) == Ties(le, [x] + t, z)
  {
    if t != [] && !le(x, t[0]) {
      var t' := t[1..];
      assert t == [t[0]] + t';
      assert forall a | a in [x, z] + t' :: a in [x, z] + t;
      InsertTies(le, x, t', z);
      var tieX := if le(x, z) && le(z, x) then [x] else [];
      var tie0 := if le(t[0], z) && le(z, t[0]) then [t[0]] else [];
      assert tieX == [] || tie0 == [] by {
        assert x in [x, z] + t && z in [x, z] + t && t[0] in [x, z] + t;
      }
      calc {
        Ties(le, Insert(le, x, t), z);
        { TiesCons(le, t[0], Insert(le, x, t'), z); }
        tie0 + Ties(le, Insert(le, x, t'), z);
        tie0 + Ties(le, [x] + t', z);
        { TiesCons(le, x, t', z); }
        tie0 + (tieX + Ties(le, t', z));
        { SwapAroundEmpty(tie0, tieX, Ties(le, t', z)); }
        tieX + (tie0 + Ties(le, t', z));
        { TiesCons(le, t[0], t', z); }
        tieX + Ties(le, t, z);
        { TiesCons(le, x, t, z); }
        Ties(le, [x] + t, z);
      }
    }
  }

  /** Stability: the elements whose key equals that of `z` keep their relative input order. */
  lemma {:induction false} SortByStable<T>(le: (T, T) -> bool, s: seq<T>, z: T)
    requires TransitiveOn(le, [z] + s)
    ensures Ties(le, SortBy(le, s), z) == Ties(le, s, z)
  {
    if s != [] {
      var tail := s[1..];
      assert s == [s[0]] + tail;
      TransitiveSub(le, [z] + tail, [z] + s);
      SortByStable(le, tail, z);
      var st := SortBy(le, tail);
      forall a | a in [s[0], z] + st
        ensures a in [z] + s
      {
        if a != s[0] && a != z {
          assert a in multiset(st);
        }
      }
      TransitiveSub(le, [s[0], z] + st, [z] + s);
      InsertTies(le, s[0], st, z);
      TiesCons(le, s[0], st, z);
      TiesCons(le, s[0], tail, z);
    }
  }

  lemma TransitiveSub<T>(le: (T, T) -> bool, small: seq<T>, big: seq<T>)
    requires TransitiveOn(le, big) && forall a | a in small :: a in big
    ensures TransitiveOn(le, small)
  {
  }

  /** Sorting a list that is already in order changes nothing. */
  lemma {:induction false} SortBySortedIsIdentity<T>(le: (T, T) -> bool, s: seq<T>)
    requires SortedBy(le, s)
    ensures SortBy(le, s) == s
  {
    if s != [] {
      SortBySortedIsIdentity(le, s[1..]);
      assert s == [s[0]] + s[1..];
    }
  }

  /** The ties of `z` in `s` are the elements of `s` with the key of `z`. */
  lemma {:induction false} TiesMember<T>(le: (T, T) -> bool, s: seq<T>, z: T, x: T)
    ensures x in Ties(le, s, z) <==> x in s && le(x, z) && le(z, x)
  {
    if s != [] {
      TiesMember(le, s[1..], z, x);
      assert s == [s[0]] + s[1..];
    }
  }

  lemma {:induction false} TiesAppend<T>(le: (T, T) -> bool, a: seq<T>, b: seq<T>, z: T)
    ensures Ties(le, a + b, z) == Ties(le, a, z) + Ties(le, b, z)
  {
    if a == [] {
      assert a + b == b;
    } else {
      TiesAppend(le, a[1..], b, z);
      assert a + b == [a[0]] + (a[1..] + b);
      assert a == [a[0]] + a[1..];
      TiesCons(le, a[0], a[1..] + b, z);
      TiesCons(le, a[0], a[1..], z);
    }
  }

  /** Two lists with the same elements have ties with the same elements. */
  lemma {:induction false} TiesMultiset<T>(le: (T, T) -> bool, r: seq<T>, s: seq<T>, z: T)
    requires multiset(r) == multiset(s)
    decreases |r|
    ensures multiset(Ties(le, r, z)) == multiset(Ties(le, s, z))
  {
    if r == [] {
      assert |s| == |multiset(s)| == 0;
    } else {
      var r0 := r[0];
      assert r0 in multiset(s);
      var i :| 0 <= i < |s| && s[i] == r0;
      var rest := s[..i] + s[i + 1..];
      assert s == s[..i] + [r0] + s[i + 1..];
      assert r == [r0] + r[1..];
      assert multiset(r[1..]) == multiset(r) - multiset{r0};
      assert multiset(s) == multiset(s[..i]) + multiset{r0} + multiset(s[i + 1..]);
      assert multiset(rest) == multiset(s) - multiset{r0};
      TiesMultiset(le, r[1..], rest, z);
      TiesAppend(le, s[..i] + [r0], s[i + 1..], z);
      TiesAppend(le, s[..i], [r0], z);
      TiesAppend(le, s[..i], s[i + 1..], z);
      TiesAppend(le, [r0], r[1..], z);
    }
  }

  lemma {:induction false} SortedTailSorted<T>(le: (T, T) -> bool, s: seq<T>)
    requires SortedBy(le, s) && s != []
    ensures SortedBy(le, s[1..])
  {
    var tail := s[1..];
    forall i, j | 0 <= i < j < |tail|
      ensures le(tail[i], tail[j])
    {
      assert tail[i] == s[i + 1] && tail[j] == s[j + 1];
    }
  }

  /** Picking the ties of a list sorted by some other order keeps it sorted by that order. */
  lemma {:induction false} TiesSorted<T>(le: (T, T) -> bool, other: (T, T) -> bool, s: seq<T>, z: T)
    requires SortedBy(other, s)
    ensures SortedBy(other, Ties(le, s, z))
  {
    if s != [] {
      var tail := s[1..];
      SortedTailSorted(other, s);
      TiesSorted(le, other, tail, z);
      if le(s[0], z) && le(z, s[0]) {
        var t := Ties(le, tail, z);
        SortedTail(other, s);
        forall y | y in t
          ensures other(s[0], y)
        {
          TiesMember(le, tail, z, y);
        }
        SortedCons(other, s[0], t);
      }
    }
  }

  /** Selecting by two keys, one after the other, in either order selects the same. */
  lemma {:induction false} TiesCommute<T>(le1: (T, T) -> bool, le2: (T, T) -> bool, s: seq<T>, z: T, w: T)
    ensures Ties(le1, Ties(le2, s, w), z) == Ties(le2, Ties(le1, s, z), w)
  {
    if s != [] {
      var h := s[0];
      TiesCommute(le1, le2, s[1..], z, w);
      TiesCons(le2, h, s[1..], w);
      TiesCons(le1, h, s[1..], z);
      assert s == [h] + s[1..];
      var h2 := if le2(h, w) && le2(w, h) then [h] else [];
      var h1 := if le1(h, z) && le1(z, h) then [h] else [];
      TiesAppend(le1, h2, Ties(le2, s[1..], w), z);
      TiesAppend(le2, h1, Ties(le1, s[1..], z), w);
      assert Ties(le1, h2, z) == Ties(le2, h1, w);
    }
  }

  /** Two lists sorted by the same order, with the same elements and with the ties of every
      key in the same order, are the same list: a stable sort has only one possible result. */
  lemma {:induction false} SortedTiesUnique<T>(le: (T, T) -> bool, r: seq<T>, u: seq<T>)
    requires multiset(r) == multiset(u)
    requires SortedBy(le, r) && SortedBy(le, u) && TotalOn(le, r)
    requires forall z | z in r :: Ties(le, r, z) == Ties(le, u, z)
    ensures r == u
  {
    assert |r| == |multiset(r)| == |multiset(u)| == |u|;
    if r != [] {
      HeadsEqual(le, r, u);
      TailsAgree(le, r, u);
      SortedTiesUnique(le, r[1..], u[1..]);
      assert r == [r[0]] + r[1..] && u == [u[0]] + u[1..];
    }
  }

  lemma HeadsEqual<T>(le: (T, T) -> bool, r: seq<T>, u: seq<T>)
    requires multiset(r) == multiset(u) && r != [] && u != []
    requires SortedBy(le, r) && SortedBy(le, u) && TotalOn(le, r)
    requires Ties(le, r, r[0]) == Ties(le, u, r[0])
    ensures r[0] == u[0]
  {
    FirstsTie(le, r, u);
    TiesHead(le, r, r[0]);
    TiesHead(le, u, r[0]);
  }

  lemma TiesHead<T>(le: (T, T) -> bool, s: seq<T>, z: T)
    requires s != [] && le(s[0], z) && le(z, s[0])
    ensures Ties(le, s, z) != [] && Ties(le, s, z)[0] == s[0]
  {
  }

  /** Removing the same first element from both lists keeps what `SortedTiesUnique` needs. */
  lemma TailsAgree<T>(le: (T, T) -> bool, r: seq<T>, u: seq<T>)
    requires multiset(r) == multiset(u) && r != [] && u != [] && r[0] == u[0]
    requires SortedBy(le, r) && SortedBy(le, u) && TotalOn(le, r)
    requires forall z | z in r :: Ties(le, r, z) == Ties(le, u, z)
    ensures multiset(r[1..]) == multiset(u[1..])
    ensures SortedBy(le, r[1..]) && SortedBy(le, u[1..]) && TotalOn(le, r[1..])
    ensures forall z | z in r[1..] :: Ties(le, r[1..], z) == Ties(le, u[1..], z)
  {
    var h, rt, ut := r[0], r[1..], u[1..];
    HeadTail(r);
    HeadTail(u);
    TailMultiset(r);
    TailMultiset(u);
    forall z | z in rt
      ensures Ties(le, rt, z) == Ties(le, ut, z)
    {
      var i :| 0 <= i < |rt| && rt[i] == z;
      assert r[i + 1] == z;
      TailTies(le, h, rt, ut, z);
    }
    TotalOnTail(le, r);
    SortedTailSorted(le, r);
    SortedTailSorted(le, u);
  }

  lemma HeadTail<T>(s: seq<T>)
    requires s != []
    ensures s == [s[0]] + s[1..]
  {
  }

  lemma TailMultiset<T>(s: seq<T>)
    requires s != []
    ensures multiset(s[1..]) == multiset(s) - multiset{s[0]}
  {
    assert s == [s[0]] + s[1..];
  }

  lemma TotalOnTail<T>(le: (T, T) -> bool, s: seq<T>)
    requires TotalOn(le, s) && s != []
    ensures TotalOn(le, s[1..])
  {
    var tail := s[1..];
    forall a, b | a in tail && b in tail
      ensures le(a, b) || le(b, a)
    {
      var i :| 0 <= i < |tail| && tail[i] == a;
      var j :| 0 <= j < |tail| && tail[j] == b;
      assert s[i + 1] == a && s[j + 1] == b;
    }
  }

  /** The first elements of two sorted lists with the same elements have the same key. */
  lemma FirstsTie<T>(le: (T, T) -> bool, r: seq<T>, u: seq<T>)
    requires multiset(r) == multiset(u) && r != [] && u != []
    requires SortedBy(le, r) && SortedBy(le, u) && TotalOn(le, r)
    ensures le(r[0], r[0]) && le(r[0], u[0]) && le(u[0], r[0])
  {
    assert u[0] in multiset(r) && r[0] in multiset(u);
    var i :| 0 <= i < |r| && r[i] == u[0];
    var j :| 0 <= j < |u| && u[j] == r[0];
    assert r[0] in r;
  }

  lemma TailTies<T>(le: (T, T) -> bool, h: T, rt: seq<T>, ut: seq<T>, z: T)
    requires Ties(le, [h] + rt, z) == Ties(le, [h] + ut, z)
    ensures Ties(le, rt, z) == Ties(le, ut, z)
  {
    TiesCons(le, h, rt, z);
    TiesCons(le, h, ut, z);
    var p := if le(h, z) && le(z, h) then [h] else [];
    assert Ties(le, rt, z) == (p + Ties(le, rt, z))[|p|..];
    assert Ties(le, ut, z) == (p + Ties(le, ut, z))[|p|..];
  }

  lemma {:induction false} InsertBeforeLarger<T>(le: (T, T) -> bool, x: T, t: seq<T>, u: seq<T>)
    requires forall y | y in u :: le(x, y)
    ensures Insert(le, x, t + u) == Insert(le, x, t) + u
  {
    if t == [] {
      assert t + u == u;
      if u != [] {
        assert u[0] in u;
      }
      assert Insert(le, x, u) == [x] + u;
    } else {
      var tu := t + u;
      assert tu[0] == t[0] && tu[1..] == t[1..] + u;
      if le(x, t[0]) {
        assert Insert(le, x, tu) == [x] + tu;
        assert Insert(le, x, t) == [x] + t;
        assert [x] + tu == ([x] + t) + u;
      } else {
        var rest := Insert(le, x, t[1..]);
        assert Insert(le, x, t) == [t[0]] + rest;
        assert Insert(le, x, tu) == [t[0]] + Insert(le, x, t[1..] + u);
        InsertBeforeLarger(le, x, t[1..], u);
        assert [t[0]] + (rest + u) == ([t[0]] + rest) + u;
      }
    }
  }

  /** When no element of `a` has a larger key than an element of `b`, sorting `a + b` sorts
      the two parts on their own. */
  lemma {:induction false} SortByAppend<T>(le: (T, T) -> bool, a: seq<T>, b: seq<T>)
    requires forall x, y | x in a && y in b :: le(x, y)
    ensures SortBy(le, a + b) == SortBy(le, a) + SortBy(le, b)
  {
    if a == [] {
      assert a + b == b;
    } else {
      var ab := a + b;
      var sb := SortBy(le, b);
      assert ab[0] == a[0] && ab[1..] == a[1..] + b;
      assert SortBy(le, a[1..] + b) == SortBy(le, a[1..]) + sb by {
        assert forall x | x in a[1..] :: x in a;
        SortByAppend(le, a[1..], b);
      }
      assert Insert(le, a[0], SortBy(le, a[1..]) + sb) == Insert(le, a[0], SortBy(le, a[1..])) + sb by {
        forall y | y in sb
          ensures le(a[0], y)
        {
          assert y in multiset(sb);
          assert y in b;
        }
        InsertBeforeLarger(le, a[0], SortBy(le, a[1..]), sb);
      }
      assert SortBy(le, ab) == Insert(le, ab[0], SortBy(le, ab[1..]));
    }
  }
}
