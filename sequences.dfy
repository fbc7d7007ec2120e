/** The generic query pipeline every tool runs over a table: keep the rows that satisfy
    the WHERE clause, order them, keep the first `k` (ORDER BY ... LIMIT k), and shape them. */
module Sequences {
  import opened Common

  /** `le` is total and transitive: a valid ORDER BY key comparison (ties allowed). */
  ghost predicate TotalPreorder<T(!new)>(le: (T, T) -> bool) {
    && (forall a, b :: le(a, b) || le(b, a))
    && (forall a, b, c :: le(a, b) && le(b, c) ==> le(a, c))
  }

  ghost predicate Sorted<T>(s: seq<T>, le: (T, T) -> bool) {
    forall i, j :: 0 <= i < j < |s| ==> le(s[i], s[j])
  }

  /** The elements of `s` that satisfy `keep`, in their original order. */
  function Filter<T>(s: seq<T>, keep: T -> bool): (r: seq<T>)
    ensures |r| <= |s|
    ensures forall x :: x in r ==> x in s && keep(x)
    ensures forall x :: x in s && keep(x) ==> x in r
    ensures forall x :: x in s ==> multiset(r)[x] == if keep(x) then multiset(s)[x] else 0
  {
    if s == [] then []
    else
      assert s == [s[0]] + s[1..];
      (if keep(s[0]) then [s[0]] else []) + Filter(s[1..], keep)
  }

  /** Two conditions that agree on every element select the same elements. */
  lemma {:induction false} FilterAgree<T>(s: seq<T>, keep1: T -> bool, keep2: T -> bool)
    requires forall x :: x in s ==> keep1(x) == keep2(x)
    ensures Filter(s, keep1) == Filter(s, keep2)
  {
    if s != [] {
      FilterAgree(s[1..], keep1, keep2);
    }
  }

  /** A condition that holds of every element selects the whole sequence. */
  lemma {:induction false} FilterAll<T>(s: seq<T>, keep: T -> bool)
    requires forall x :: x in s ==> keep(x)
    ensures Filter(s, keep) == s
  {
    if s != [] {
      FilterAll(s[1..], keep);
      assert s == [s[0]] + s[1..];
    }
  }

  function Map<T, U>(s: seq<T>, f: T -> U): (r: seq<U>)
    ensures |r| == |s|
    ensures forall i :: 0 <= i < |s| ==> r[i] == f(s[i])
  {
    if s == [] then [] else [f(s[0])] + Map(s[1..], f)
  }

  /** The members of `Map(s, f)` are exactly the images of the members of `s`. */
  lemma MapMembers<T, U>(s: seq<T>, f: T -> U)
    ensures forall x :: x in s ==> f(x) in Map(s, f)
    ensures forall y :: y in Map(s, f) ==> exists x :: x in s && y == f(x)
  {
    var r := Map(s, f);
    forall x | x in s ensures f(x) in r {
      var i :| 0 <= i < |s| && s[i] == x;
      assert r[i] == f(x);
    }
    forall y | y in r ensures exists x :: x in s && y == f(x) {
      var i :| 0 <= i < |r| && r[i] == y;
      assert s[i] in s;
    }
  }

  /** Inserts `x` into the sorted `s` before the first element it does not follow. */
  function Insert<T(!new)>(x: T, s: seq<T>, le: (T, T) -> bool): (r: seq<T>)
    requires TotalPreorder(le) && Sorted(s, le)
    ensures multiset(r) == multiset(s) + multiset{x}
    ensures Sorted(r, le)
  {
    if s == [] then [x]
    else if le(x, s[0]) then [x] + s
    else
      var t := Insert(x, s[1..], le);
      assert s == [s[0]] + s[1..];
      BelowAll(s[0], t, s[1..], x, le);
      [s[0]] + t
  }

  lemma BelowAll<T>(y: T, t: seq<T>, s: seq<T>, x: T, le: (T, T) -> bool)
    requires multiset(t) == multiset(s) + multiset{x}
    requires le(y, x)
    requires forall j :: 0 <= j < |s| ==> le(y, s[j])
    ensures forall j :: 0 <= j < |t| ==> le(y, t[j])
  {
    forall j | 0 <= j < |t|
      ensures le(y, t[j])
    {
      assert t[j] in multiset(t);
      if t[j] != x {
        assert t[j] in multiset(s);
        var k :| 0 <= k < |s| && s[k] == t[j];
      }
    }
  }

  /** Insertion sort: a sorted permutation of `s`. Ties keep no promised order. */
  function SortBy<T(!new)>(s: seq<T>, le: (T, T) -> bool): (r: seq<T>)
    requires TotalPreorder(le)
    ensures multiset(r) == multiset(s)
    ensures |r| == |s|
    ensures Sorted(r, le)
  {
    if s == [] then []
    else
      assert s == [s[0]] + s[1..];
      var r := Insert(s[0], SortBy(s[1..], le), le);
      assert |r| == |multiset(r)| == |multiset(s)| == |s|;
      r
  }

  /** `ORDER BY ... LIMIT k`: the first `k` elements of `s` in `le` order. */
  function TopK<T(!new)>(s: seq<T>, le: (T, T) -> bool, k: nat): (r: seq<T>)
    requires TotalPreorder(le)
    ensures |r| == Min(k, |s|)
    ensures Sorted(r, le)
    ensures multiset(r) <= multiset(s)
    ensures forall x :: x in r ==> x in s
    ensures |s| <= k ==> multiset(r) == multiset(s)
    ensures forall x, y :: x in s && x !in r && y in r ==> le(y, x)
  {
    var t := SortBy(s, le);
    var n := Min(k, |t|);
    TopKFacts(s, t, n, le);
    t[..n]
  }

  lemma TopKFacts<T>(s: seq<T>, t: seq<T>, n: nat, le: (T, T) -> bool)
    requires multiset(t) == multiset(s) && Sorted(t, le) && n <= |t|
    ensures multiset(t[..n]) <= multiset(s)
    ensures forall x :: x in t[..n] ==> x in s
    ensures n == |t| ==> multiset(t[..n]) == multiset(s)
    ensures forall x, y :: x in s && x !in t[..n] && y in t[..n] ==> le(y, x)
  {
    assert t == t[..n] + t[n..];
    assert multiset(t) == multiset(t[..n]) + multiset(t[n..]);
    forall x | x in t[..n] ensures x in s {
      assert x in multiset(t[..n]);
      assert x in multiset(s);
    }
    forall x, y | x in s && x !in t[..n] && y in t[..n]
      ensures le(y, x)
    {
      assert x in multiset(t);
      var j :| 0 <= j < |t| && t[j] == x;
      var i :| 0 <= i < n && t[..n][i] == y;
    }
  }

  /** Functions that agree on every element map `s` to the same sequence. */
  lemma {:induction false} MapAgree<T, U>(s: seq<T>, f: T -> U, g: T -> U)
    requires forall x :: x in s ==> f(x) == g(x)
    ensures Map(s, f) == Map(s, g)
  {
    if s != [] {
      MapAgree(s[1..], f, g);
    }
  }

  /** The whole ORDER BY / LIMIT / projection pipeline over the rows a WHERE clause kept:
      shape each row with `f`, order by `le`, keep the first `k`. */
  function Select<T, U(!new)>(s: seq<T>, f: T -> U, le: (U, U) -> bool, k: nat): (r: seq<U>)
    requires TotalPreorder(le)
    ensures |r| == Min(k, |s|)
    ensures Sorted(r, le)
    ensures forall y :: y in r ==> exists x :: x in s && y == f(x)
    ensures |s| <= k ==> forall x :: x in s ==> f(x) in r
    ensures multiset(r) <= multiset(Map(s, f))
    ensures |s| <= k ==> multiset(r) == multiset(Map(s, f))
    ensures forall x, y :: x in s && f(x) !in r && y in r ==> le(y, f(x))
  {
    var shaped := Map(s, f);
    MapMembers(s, f);
    var r := TopK(shaped, le, k);
    AllKept(s, f, shaped, r);
    r
  }

  /** A tool's whole query over one table: WHERE `keep`, then shape, ORDER BY and LIMIT. */
  function Query<T, U(!new)>(s: seq<T>, keep: T -> bool, f: T -> U, le: (U, U) -> bool, k: nat): (r: seq<U>)
    requires TotalPreorder(le)
    ensures |r| == Min(k, |Filter(s, keep)|)
    ensures k > 0 ==> (r == [] <==> forall x :: x in s ==> !keep(x))
    ensures Sorted(r, le)
    ensures forall y :: y in r ==> exists x :: x in s && keep(x) && y == f(x)
    ensures |Filter(s, keep)| <= k ==> forall x :: x in s && keep(x) ==> f(x) in r
    ensures multiset(r) <= multiset(Map(Filter(s, keep), f))
    ensures |Filter(s, keep)| <= k ==> multiset(r) == multiset(Map(Filter(s, keep), f))
    ensures forall x, y :: x in s && keep(x) && f(x) !in r && y in r ==> le(y, f(x))
  {
    var r := Select(Filter(s, keep), f, le, k);
    NoneKept(s, keep);
    r
  }

  lemma NoneKept<T>(s: seq<T>, keep: T -> bool)
    ensures Filter(s, keep) == [] <==> forall x :: x in s ==> !keep(x)
  {
    if Filter(s, keep) != [] {
      assert Filter(s, keep)[0] in Filter(s, keep);
    }
  }

  lemma AllKept<T, U>(s: seq<T>, f: T -> U, shaped: seq<U>, r: seq<U>)
    requires forall x :: x in s ==> f(x) in shaped
    requires |s| == |shaped| && (|s| == |r| ==> multiset(r) == multiset(shaped))
    requires |r| <= |s|
    ensures |s| == |r| ==> forall x :: x in s ==> f(x) in r
  {
    if |s| == |r| {
      forall x | x in s ensures f(x) in r {
        assert f(x) in multiset(shaped);
      }
    }
  }

  /** Shapings that agree on every kept row give the same answer. */
  lemma SelectAgree<T, U(!new)>(s: seq<T>, f: T -> U, g: T -> U, le: (U, U) -> bool, k: nat)
    requires TotalPreorder(le)
    requires forall x :: x in s ==> f(x) == g(x)
    ensures Select(s, f, le, k) == Select(s, g, le, k)
  {
    MapAgree(s, f, g);
  }
}
