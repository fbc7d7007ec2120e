/** GROUP BY with COUNT and SUM, and the fact that grouping accounts for every row once. */
module Grouping {
  import opened Sequences

  ghost predicate Distinct<K>(ks: seq<K>) {
    forall i, j :: 0 <= i < j < |ks| ==> ks[i] != ks[j]
  }

  /** Dropping rows from a sequence without repeats leaves one without repeats. */
  lemma {:induction false} FilterKeepsDistinct<T>(s: seq<T>, keep: T -> bool)
    requires Distinct(s)
    ensures Distinct(Filter(s, keep))
  {
    if s != [] {
      assert Distinct(s[1..]) by {
        forall i, j | 0 <= i < j < |s[1..]| ensures s[1..][i] != s[1..][j] {
          assert s[1..][i] == s[i + 1] && s[1..][j] == s[j + 1];
        }
      }
      FilterKeepsDistinct(s[1..], keep);
      if keep(s[0]) {
        NotLater(s);
        PrependDistinct(s[0], Filter(s[1..], keep));
      }
    }
  }

  lemma NotLater<T>(s: seq<T>)
    requires Distinct(s) && s != []
    ensures s[0] !in s[1..]
  {
    forall j | 0 <= j < |s[1..]| ensures s[1..][j] != s[0] {
      assert s[1..][j] == s[j + 1];
    }
  }

  lemma PrependDistinct<T>(x: T, t: seq<T>)
    requires Distinct(t) && x !in t
    ensures Distinct([x] + t)
  {
    forall i, j | 0 <= i < j < |[x] + t| ensures ([x] + t)[i] != ([x] + t)[j] {
      assert ([x] + t)[j] == t[j - 1];
      if i > 0 {
        assert ([x] + t)[i] == t[i - 1];
      }
    }
  }

  /** Dropping rows from a table with a unique key leaves a table with a unique key. */
  lemma {:induction false} FilterKeepsDistinctKeys<T, K>(s: seq<T>, keep: T -> bool, key: T -> K)
    requires Distinct(Map(s, key))
    ensures Distinct(Map(Filter(s, keep), key))
  {
    if s != [] {
      var ks := Map(s, key);
      assert ks == [key(s[0])] + Map(s[1..], key);
      assert Distinct(Map(s[1..], key)) by {
        forall i, j | 0 <= i < j < |s[1..]| ensures Map(s[1..], key)[i] != Map(s[1..], key)[j] {
          assert Map(s[1..], key)[i] == ks[i + 1] && Map(s[1..], key)[j] == ks[j + 1];
        }
      }
      FilterKeepsDistinctKeys(s[1..], keep, key);
      if keep(s[0]) {
        var t := Filter(s[1..], keep);
        NotLater(ks);
        MapMembers(t, key);
        assert key(s[0]) !in Map(t, key);
        PrependDistinct(key(s[0]), Map(t, key));
        assert Filter(s, keep) == [s[0]] + t;
        assert Map([s[0]] + t, key) == [key(s[0])] + Map(t, key);
      }
    }
  }

  /** The rows of `s` whose key is `k`, in their original order: one group of a GROUP BY. */
  function Group<T, K(==)>(s: seq<T>, key: T -> K, k: K): (g: seq<T>)
    ensures |g| <= |s|
    ensures forall x :: x in g ==> x in s && key(x) == k
    ensures forall x :: x in s && key(x) == k ==> x in g
    ensures forall x :: x in s ==> multiset(g)[x] == if key(x) == k then multiset(s)[x] else 0
  {
    if s == [] then []
    else
      assert s == [s[0]] + s[1..];
      (if key(s[0]) == k then [s[0]] else []) + Group(s[1..], key, k)
  }

  /** `SUM(f)` over the rows of `s`. */
  function SumOf<T>(s: seq<T>, f: T -> int): int {
    if s == [] then 0 else f(s[0]) + SumOf(s[1..], f)
  }

  lemma {:induction false} SumOfConcat<T>(a: seq<T>, b: seq<T>, f: T -> int)
    ensures SumOf(a + b, f) == SumOf(a, f) + SumOf(b, f)
  {
    if a == [] {
      assert a + b == b;
    } else {
      assert (a + b)[1..] == a[1..] + b;
      SumOfConcat(a[1..], b, f);
    }
  }

  /** A sum does not depend on the order of the rows it adds up. */
  lemma {:induction false} SumOfPermutation<T>(a: seq<T>, b: seq<T>, f: T -> int)
    requires multiset(a) == multiset(b)
    ensures SumOf(a, f) == SumOf(b, f)
    decreases |a|
  {
    if a != [] {
      assert a[0] in multiset(b);
      var i :| 0 <= i < |b| && b[i] == a[0];
      var rest := b[..i] + b[i + 1..];
      SumOfRemove(b, i, f);
      MultisetRemove(b, i);
      assert a == [a[0]] + a[1..];
      assert multiset(a[1..]) == multiset(a) - multiset{a[0]};
      SumOfPermutation(a[1..], rest, f);
    }
  }

  /** Taking row `i` out of the sum. */
  lemma SumOfRemove<T>(b: seq<T>, i: int, f: T -> int)
    requires 0 <= i < |b|
    ensures SumOf(b, f) == f(b[i]) + SumOf(b[..i] + b[i + 1..], f)
  {
    var tail := [b[i]] + b[i + 1..];
    assert tail[0] == b[i] && tail[1..] == b[i + 1..];
    assert SumOf(tail, f) == f(b[i]) + SumOf(b[i + 1..], f);
    assert b == b[..i] + tail;
    SumOfConcat(b[..i], tail, f);
    SumOfConcat(b[..i], b[i + 1..], f);
  }

  lemma MultisetRemove<T>(b: seq<T>, i: int)
    requires 0 <= i < |b|
    ensures multiset(b[..i] + b[i + 1..]) == multiset(b) - multiset{b[i]}
  {
    assert b == b[..i] + [b[i]] + b[i + 1..];
  }

  /** The group sums of `f`, one per key in `keys`, added up. */
  function KeyedSum<T, K(==)>(s: seq<T>, key: T -> K, f: T -> int, keys: seq<K>): int {
    if keys == [] then 0 else SumOf(Group(s, key, keys[0]), f) + KeyedSum(s, key, f, keys[1..])
  }

  /** The group sizes, one per key in `keys`, added up. */
  function KeyedCount<T, K(==)>(s: seq<T>, key: T -> K, keys: seq<K>): int {
    if keys == [] then 0 else |Group(s, key, keys[0])| + KeyedCount(s, key, keys[1..])
  }

  lemma {:induction false} KeyedSumOfEmpty<T, K>(key: T -> K, f: T -> int, keys: seq<K>)
    ensures KeyedSum([], key, f, keys) == 0
  {
    if keys != [] {
      KeyedSumOfEmpty(key, f, keys[1..]);
    }
  }

  lemma {:induction false} KeyedCountOfEmpty<T, K>(key: T -> K, keys: seq<K>)
    ensures KeyedCount([], key, keys) == 0
  {
    if keys != [] {
      KeyedCountOfEmpty(key, keys[1..]);
    }
  }

  /** Removing the first row takes its contribution out of exactly one group sum. */
  lemma {:induction false} KeyedSumPeel<T, K>(s: seq<T>, key: T -> K, f: T -> int, keys: seq<K>)
    requires s != [] && Distinct(keys)
    ensures KeyedSum(s, key, f, keys)
         == KeyedSum(s[1..], key, f, keys) + (if key(s[0]) in keys then f(s[0]) else 0)
  {
    if keys != [] {
      assert Distinct(keys[1..]);
      KeyedSumPeel(s, key, f, keys[1..]);
      var g := Group(s[1..], key, keys[0]);
      if key(s[0]) == keys[0] {
        assert Group(s, key, keys[0]) == [s[0]] + g;
        assert key(s[0]) !in keys[1..];
      } else {
        assert Group(s, key, keys[0]) == g;
        assert key(s[0]) in keys <==> key(s[0]) in keys[1..];
      }
    }
  }

  /** Removing the first row takes it out of exactly one group. */
  lemma {:induction false} KeyedCountPeel<T, K>(s: seq<T>, key: T -> K, keys: seq<K>)
    requires s != [] && Distinct(keys)
    ensures KeyedCount(s, key, keys)
         == KeyedCount(s[1..], key, keys) + (if key(s[0]) in keys then 1 else 0)
  {
    if keys != [] {
      assert Distinct(keys[1..]);
      KeyedCountPeel(s, key, keys[1..]);
      var g := Group(s[1..], key, keys[0]);
      if key(s[0]) == keys[0] {
        assert Group(s, key, keys[0]) == [s[0]] + g;
        assert key(s[0]) !in keys[1..];
      } else {
        assert Group(s, key, keys[0]) == g;
        assert key(s[0]) in keys <==> key(s[0]) in keys[1..];
      }
    }
  }

  /** Grouping by a key that every row carries, over distinct keys, accounts for every
      row exactly once: the group sums add up to the overall sum. */
  lemma {:induction false} GroupSumsPartition<T, K>(s: seq<T>, key: T -> K, f: T -> int, keys: seq<K>)
    requires Distinct(keys)
    requires forall x :: x in s ==> key(x) in keys
    ensures KeyedSum(s, key, f, keys) == SumOf(s, f)
  {
    if s == [] {
      KeyedSumOfEmpty(key, f, keys);
    } else {
      KeyedSumPeel(s, key, f, keys);
      GroupSumsPartition(s[1..], key, f, keys);
    }
  }

  /** ... and the group sizes add up to the number of rows. */
  lemma {:induction false} GroupSizesPartition<T, K>(s: seq<T>, key: T -> K, keys: seq<K>)
    requires Distinct(keys)
    requires forall x :: x in s ==> key(x) in keys
    ensures KeyedCount(s, key, keys) == |s|
  {
    if s == [] {
      KeyedCountOfEmpty(key, keys);
    } else {
      KeyedCountPeel(s, key, keys);
      GroupSizesPartition(s[1..], key, keys);
    }
  }
}
