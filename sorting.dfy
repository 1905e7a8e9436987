/**
 * `Array.prototype.sort` with a consistent comparator is a stable sort: the
 * result is ordered by the comparator and elements the comparator calls equal
 * keep their relative order. `SortBy` is that sort, written as an insertion
 * sort over a key of each element and a total preorder `le` on keys.
 */
module Sorting {

  /** `le` relates every pair of keys one way or the other. */
  ghost predicate Total<K(!new)>(le: (K, K) -> bool)
  {
    forall a, b :: le(a, b) || le(b, a)
  }

  ghost predicate Reflexive<K(!new)>(le: (K, K) -> bool)
  {
    forall a :: le(a, a)
  }

  lemma TotalIsReflexive<K(!new)>(le: (K, K) -> bool)
    requires Total(le)
    ensures Reflexive(le)
  {
    forall a ensures le(a, a) { assert le(a, a) || le(a, a); }
  }

  ghost predicate Transitive<K(!new)>(le: (K, K) -> bool)
  {
    forall a, b, c :: le(a, b) && le(b, c) ==> le(a, c)
  }

  /** Every earlier element's key is `le` every later element's key. */
  ghost predicate SortedBy<T, K>(s: seq<T>, key: T -> K, le: (K, K) -> bool)
  {
    forall i, j :: 0 <= i < j < |s| ==> le(key(s[i]), key(s[j]))
  }

  /** The elements of `s` whose key is `k`, in their order in `s`. */
  function WithKey<T, K(==)>(s: seq<T>, key: T -> K, k: K): (r: seq<T>)
    ensures |r| <= |s|
  {
    if s == [] then []
    else (if key(s[0]) == k then [s[0]] else []) + WithKey(s[1..], key, k)
  }

  /** Insert `x` in front of the first element whose key `x`'s key is `le`. */
  function Insert<T, K>(x: T, s: seq<T>, key: T -> K, le: (K, K) -> bool): (r: seq<T>)
    ensures multiset(r) == multiset(s) + multiset{x}
  {
    if s == [] then [x]
    else if le(key(x), key(s[0])) then [x] + s
    else
      assert s == [s[0]] + s[1..];
      [s[0]] + Insert(x, s[1..], key, le)
  }

  function SortBy<T, K>(s: seq<T>, key: T -> K, le: (K, K) -> bool): (r: seq<T>)
    ensures multiset(r) == multiset(s)
  {
    if s == [] then []
    else
      assert s == [s[0]] + s[1..];
      Insert(s[0], SortBy(s[1..], key, le), key, le)
  }

  lemma {:induction false} InsertSorted<T, K(!new)>(x: T, s: seq<T>, key: T -> K, le: (K, K) -> bool)
    requires Total(le) && Transitive(le)
    requires SortedBy(s, key, le)
    ensures SortedBy(Insert(x, s, key, le), key, le)
  {
    if s != [] && !le(key(x), key(s[0])) {
      var t := Insert(x, s[1..], key, le);
      InsertSorted(x, s[1..], key, le);
      assert le(key(s[0]), key(x));
      forall e | e in t ensures le(key(s[0]), key(e)) {
        assert e in multiset(t);
        if e != x {
          assert e in multiset(s[1..]);
          var j :| 0 <= j < |s[1..]| && s[1..][j] == e;
          assert s[1 + j] == e;
        }
      }
      var r := [s[0]] + t;
      forall i, j | 0 <= i < j < |r| ensures le(key(r[i]), key(r[j])) {
        if i == 0 {
          assert r[j] in t;
        } else {
          assert r[i] == t[i - 1] && r[j] == t[j - 1];
        }
      }
    }
  }

  lemma {:induction false} SortBySorted<T, K(!new)>(s: seq<T>, key: T -> K, le: (K, K) -> bool)
    requires Total(le) && Transitive(le)
    ensures SortedBy(SortBy(s, key, le), key, le)
  {
    if s != [] {
      SortBySorted(s[1..], key, le);
      InsertSorted(s[0], SortBy(s[1..], key, le), key, le);
    }
  }

  lemma WithKeyCons<T, K(!new)>(y: T, t: seq<T>, key: T -> K, k: K)
    ensures WithKey([y] + t, key, k) == (if key(y) == k then [y] else []) + WithKey(t, key, k)
  {
    assert ([y] + t)[0] == y && ([y] + t)[1..] == t;
  }

  /** Insertion keeps the order among equal keys: `x` lands before every element with its key. */
  lemma {:induction false} InsertWithKey<T, K(!new)>(x: T, s: seq<T>, key: T -> K, le: (K, K) -> bool, k: K)
    requires Reflexive(le)
    ensures WithKey(Insert(x, s, key, le), key, k)
         == (if key(x) == k then [x] else []) + WithKey(s, key, k)
  {
    if s == [] {
      WithKeyCons(x, s, key, k);
    } else if le(key(x), key(s[0])) {
      WithKeyCons(x, s, key, k);
    } else {
      var t := Insert(x, s[1..], key, le);
      var w := WithKey(s[1..], key, k);
      assert Insert(x, s, key, le) == [s[0]] + t;
      WithKeyCons(s[0], t, key, k);
      InsertWithKey(x, s[1..], key, le, k);
      assert s == [s[0]] + s[1..];
      WithKeyCons(s[0], s[1..], key, k);
      if key(x) == k {
        assert key(s[0]) != k by {
          assert le(key(x), key(x));
        }
        assert WithKey(t, key, k) == [x] + w;
        assert WithKey(s, key, k) == w;
      } else {
        assert WithKey(t, key, k) == w;
      }
    }
  }

  /** Stability: for every key, the elements with that key appear in their original order. */
  lemma {:induction false} SortByStable<T, K(!new)>(s: seq<T>, key: T -> K, le: (K, K) -> bool, k: K)
    requires Total(le)
    ensures WithKey(SortBy(s, key, le), key, k) == WithKey(s, key, k)
  {
    if s != [] {
      TotalIsReflexive(le);
      SortByStable(s[1..], key, le, k);
      InsertWithKey(s[0], SortBy(s[1..], key, le), key, le, k);
    }
  }

  /** The first element with a given key is unchanged by sorting. */
  lemma FirstWithKeyStable<T, K(!new)>(s: seq<T>, key: T -> K, le: (K, K) -> bool, k: K)
    requires Total(le)
    ensures WithKey(SortBy(s, key, le), key, k) != [] <==> WithKey(s, key, k) != []
    ensures WithKey(s, key, k) != [] ==>
              WithKey(SortBy(s, key, le), key, k)[0] == WithKey(s, key, k)[0]
  {
    SortByStable(s, key, le, k);
  }

  /** The order a comparator `(a, b) => b - a` sorts numbers in: larger first. */
  predicate AtLeast(a: int, b: int)
  {
    a >= b
  }

  lemma AtLeastIsTotalPreorder()
    ensures Total(AtLeast) && Transitive(AtLeast)
  {
  }
}
