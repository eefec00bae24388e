/**
 * The list sorts the bot relies on: Python's `sorted` / `list.sort` with a
 * key, modelled as a stable insertion sort over a total preorder, and the
 * `sorted(set(...))` idiom for reals.
 */
module Sorting {

  /** `le` is a total preorder: every two elements compare, and comparison chains. */
  ghost predicate TotalPreorder<T(!new)>(le: (T, T) -> bool)
  {
    (forall a: T, b: T :: le(a, b) || le(b, a))
    && (forall a: T, b: T, c: T :: le(a, b) && le(b, c) ==> le(a, c))
  }

  /** Every earlier element is `le` every later one. */
  ghost predicate SortedBy<T>(s: seq<T>, le: (T, T) -> bool)
  {
    forall i, j :: 0 <= i < j < |s| ==> le(s[i], s[j])
  }

  /** Insert `x` before the first element it is `le` to (later equals stay after it). */
  function InsertBy<T>(x: T, s: seq<T>, le: (T, T) -> bool): (r: seq<T>)
    ensures multiset(r) == multiset(s) + multiset{x}
    ensures |r| == |s| + 1
  {
    if s == [] then [x]
    else if le(x, s[0]) then [x] + s
    else
      assert s == [s[0]] + s[1..];
      [s[0]] + InsertBy(x, s[1..], le)
  }

  lemma {:induction false} InsertKeepsSorted<T(!new)>(x: T, s: seq<T>, le: (T, T) -> bool)
    requires TotalPreorder(le)
    requires SortedBy(s, le)
    ensures SortedBy(InsertBy(x, s, le), le)
  {
    if s == [] || le(x, s[0]) {
    } else {
      var tail := s[1..];
      InsertKeepsSorted(x, tail, le);
      var r := InsertBy(x, tail, le);
      assert le(s[0], x);
      forall k | 0 <= k < |r|
        ensures le(s[0], r[k])
      {
        assert r[k] in multiset(r);
        assert r[k] in multiset(tail) || r[k] == x;
        if r[k] != x {
          var m :| 0 <= m < |tail| && tail[m] == r[k];
          assert tail[m] == s[m + 1];
        }
      }
    }
  }

  /** A stable sort of `s` by `le`. */
  function SortBy<T>(s: seq<T>, le: (T, T) -> bool): (r: seq<T>)
    ensures multiset(r) == multiset(s)
    ensures |r| == |s|
  {
    if s == [] then []
    else
      assert s == [s[0]] + s[1..];
      InsertBy(s[0], SortBy(s[1..], le), le)
  }

  lemma {:induction false} SortBySorted<T(!new)>(s: seq<T>, le: (T, T) -> bool)
    requires TotalPreorder(le)
    ensures SortedBy(SortBy(s, le), le)
  {
    if s != [] {
      SortBySorted(s[1..], le);
      InsertKeepsSorted(s[0], SortBy(s[1..], le), le);
    }
  }

  lemma SortByMembers<T>(s: seq<T>, le: (T, T) -> bool)
    ensures forall x :: x in SortBy(s, le) <==> x in s
  {
    forall x
      ensures x in SortBy(s, le) <==> x in s
    {
      assert x in SortBy(s, le) <==> x in multiset(SortBy(s, le));
      assert x in s <==> x in multiset(s);
    }
  }

  /** Strictly increasing. */
  predicate StrictlyIncreasing(s: seq<real>)
  {
    forall i, j :: 0 <= i < j < |s| ==> s[i] < s[j]
  }

  /** The values held by `s`. */
  function Elems(s: seq<real>): set<real>
  {
    set x | x in s
  }

  /** Putting a value in front of larger values keeps the list strictly increasing. */
  lemma ConsIncreasing(h: real, t: seq<real>)
    requires StrictlyIncreasing(t)
    requires forall v :: v in t ==> h < v
    ensures StrictlyIncreasing([h] + t)
  {
    forall i, j | 0 <= i < j < |[h] + t|
      ensures ([h] + t)[i] < ([h] + t)[j]
    {
      assert ([h] + t)[j] == t[j - 1] && t[j - 1] in t;
      if i > 0 {
        assert ([h] + t)[i] == t[i - 1];
      }
    }
  }

  lemma ElemsCons(h: real, t: seq<real>)
    ensures Elems([h] + t) == {h} + Elems(t)
  {
    assert forall v :: v in [h] + t <==> v == h || v in t;
  }

  /** Insert `x` into a strictly increasing list unless it is already there. */
  function InsertUnique(x: real, s: seq<real>): (r: seq<real>)
    requires StrictlyIncreasing(s)
    ensures StrictlyIncreasing(r)
    ensures Elems(r) == Elems(s) + {x}
  {
    if s == [] then [x]
    else if x < s[0] then
      ElemsCons(x, s);
      ConsIncreasing(x, s);
      [x] + s
    else if x == s[0] then s
    else
      var t := InsertUnique(x, s[1..]);
      InsertUniqueCons(x, s, t);
      [s[0]] + t
  }

  /** The step of `InsertUnique` past a smaller head: the head goes back in front. */
  lemma InsertUniqueCons(x: real, s: seq<real>, t: seq<real>)
    requires StrictlyIncreasing(s) && s != [] && s[0] < x
    requires StrictlyIncreasing(t) && Elems(t) == Elems(s[1..]) + {x}
    ensures StrictlyIncreasing([s[0]] + t)
    ensures Elems([s[0]] + t) == Elems(s) + {x}
  {
    assert s == [s[0]] + s[1..];
    ElemsCons(s[0], s[1..]);
    ElemsCons(s[0], t);
    forall v | v in t
      ensures s[0] < v
    {
      assert v in Elems(t);
      if v != x {
        assert v in Elems(s[1..]);
        var k :| 0 <= k < |s[1..]| && s[1..][k] == v;
        assert s[k + 1] == v;
      }
    }
    ConsIncreasing(s[0], t);
  }

  /** `sorted(set(s))`: the distinct values of `s` in increasing order. */
  function SortedSet(s: seq<real>): (r: seq<real>)
    ensures StrictlyIncreasing(r)
    ensures Elems(r) == Elems(s)
  {
    if s == [] then []
    else
      assert s == [s[0]] + s[1..];
      ElemsCons(s[0], s[1..]);
      InsertUnique(s[0], SortedSet(s[1..]))
  }
}
