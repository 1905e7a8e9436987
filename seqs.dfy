/** Order-preserving `filter` and `map` over sequences, and the subsequence order. */
module Seqs {

  /** `s.filter(p)`. */
  function Filter<T(==)>(s: seq<T>, p: T -> bool): (r: seq<T>)
    ensures |r| <= |s|
    ensures forall i :: 0 <= i < |r| ==> r[i] in s && p(r[i])
    ensures forall i :: 0 <= i < |s| && p(s[i]) ==> s[i] in r
  {
    if s == [] then []
    else (if p(s[0]) then [s[0]] else []) + Filter(s[1..], p)
  }

  /** `s.map(f)`. */
  function MapSeq<T, U>(s: seq<T>, f: T -> U): (r: seq<U>)
    ensures |r| == |s|
    ensures forall i :: 0 <= i < |s| ==> r[i] == f(s[i])
  {
    if s == [] then [] else [f(s[0])] + MapSeq(s[1..], f)
  }

  /** Mapping a sequence with one more element at its end adds its image at the end. */
  lemma MapSeqSnoc<T, U>(s: seq<T>, f: T -> U)
    requires s != []
    ensures MapSeq(s, f) == MapSeq(s[..|s| - 1], f) + [f(s[|s| - 1])]
  {
    var n := |s| - 1;
    var a := MapSeq(s, f);
    var b := MapSeq(s[..n], f) + [f(s[n])];
    forall k | 0 <= k < |s| ensures a[k] == b[k] {
      if k < n {
        assert b[k] == MapSeq(s[..n], f)[k] && s[..n][k] == s[k];
      }
    }
    assert a == b;
  }

  /** Filtering keeps each accepted element as often as it occurs and drops every other one. */
  lemma {:induction false} FilterMultiset<T>(s: seq<T>, p: T -> bool)
    ensures forall x :: multiset(Filter(s, p))[x] == if p(x) then multiset(s)[x] else 0
  {
    if s != [] {
      FilterMultiset(s[1..], p);
      assert s == [s[0]] + s[1..];
      assert Filter(s, p) == (if p(s[0]) then [s[0]] else []) + Filter(s[1..], p);
    }
  }

  /** An element is kept exactly when it occurs and is accepted. */
  lemma FilterMembership<T>(s: seq<T>, p: T -> bool)
    ensures forall x :: x in Filter(s, p) <==> x in s && p(x)
  {
    FilterMultiset(s, p);
    forall x ensures x in Filter(s, p) <==> x in s && p(x) {
      assert x in Filter(s, p) <==> x in multiset(Filter(s, p));
      assert x in s <==> x in multiset(s);
    }
  }

  /** `xs` is `ys` with some elements left out, the rest in their order. */
  ghost predicate IsSubsequence<T>(xs: seq<T>, ys: seq<T>)
  {
    if xs == [] then true
    else if ys == [] then false
    else if xs[0] == ys[0] then IsSubsequence(xs[1..], ys[1..])
    else IsSubsequence(xs, ys[1..])
  }

  lemma {:induction false} FilterIsSubsequence<T>(s: seq<T>, p: T -> bool)
    ensures IsSubsequence(Filter(s, p), s)
  {
    if s != [] {
      FilterIsSubsequence(s[1..], p);
      if !p(s[0]) {
        assert Filter(s, p) == Filter(s[1..], p);
        SubsequenceDropHead(Filter(s[1..], p), s);
      }
    }
  }

  lemma {:induction false} SubsequenceDropHead<T>(xs: seq<T>, ys: seq<T>)
    requires ys != [] && IsSubsequence(xs, ys[1..])
    ensures IsSubsequence(xs, ys)
  {
    if xs != [] && xs[0] == ys[0] {
      SubsequenceTail(xs, ys[1..]);
    }
  }

  lemma {:induction false} SubsequenceTail<T>(xs: seq<T>, ys: seq<T>)
    requires xs != [] && IsSubsequence(xs, ys)
    ensures IsSubsequence(xs[1..], ys)
  {
    if ys != [] {
      if xs[0] == ys[0] {
        SubsequenceDropHead(xs[1..], ys);
      } else {
        SubsequenceTail(xs, ys[1..]);
        SubsequenceDropHead(xs[1..], ys);
      }
    }
  }

  /** Mapping keeps the subsequence order. */
  lemma {:induction false} MapSubsequence<T, U>(xs: seq<T>, ys: seq<T>, f: T -> U)
    requires IsSubsequence(xs, ys)
    ensures IsSubsequence(MapSeq(xs, f), MapSeq(ys, f))
  {
    if xs != [] {
      if xs[0] == ys[0] {
        MapSubsequence(xs[1..], ys[1..], f);
        assert MapSeq(xs, f)[1..] == MapSeq(xs[1..], f);
      } else {
        MapSubsequence(xs, ys[1..], f);
        SubsequenceDropHead(MapSeq(xs, f), MapSeq(ys, f));
      }
    }
  }

  lemma {:induction false} FilterConcat<T>(a: seq<T>, b: seq<T>, p: T -> bool)
    ensures Filter(a + b, p) == Filter(a, p) + Filter(b, p)
  {
    if a == [] {
      assert a + b == b;
    } else {
      assert (a + b)[0] == a[0];
      assert (a + b)[1..] == a[1..] + b;
      FilterConcat(a[1..], b, p);
    }
  }

  /** Every sequence is a subsequence of itself. */
  lemma {:induction false} SubsequenceRefl<T>(s: seq<T>)
    ensures IsSubsequence(s, s)
  {
    if s != [] {
      SubsequenceRefl(s[1..]);
    }
  }

  /** `ss.flat()`: the inner sequences one after another. */
  function Flatten<T>(ss: seq<seq<T>>): seq<T>
  {
    if ss == [] then [] else Flatten(ss[..|ss| - 1]) + ss[|ss| - 1]
  }

  lemma {:induction false} FlattenMembership<T>(ss: seq<seq<T>>, x: T)
    ensures x in Flatten(ss) <==> exists i :: 0 <= i < |ss| && x in ss[i]
  {
    if ss != [] {
      var n := |ss| - 1;
      FlattenMembership(ss[..n], x);
      if x in Flatten(ss[..n]) {
        var i :| 0 <= i < n && x in ss[..n][i];
        assert ss[i] == ss[..n][i];
      }
      if exists i :: 0 <= i < |ss| && x in ss[i] {
        var i :| 0 <= i < |ss| && x in ss[i];
        if i < n {
          assert ss[..n][i] == ss[i];
        }
      }
    }
  }

  /** Flattening sequences of at most `k` elements each gives at most `k` per sequence. */
  lemma {:induction false} FlattenLength<T>(ss: seq<seq<T>>, k: nat)
    requires forall i :: 0 <= i < |ss| ==> |ss[i]| <= k
    ensures |Flatten(ss)| <= k * |ss|
  {
    if ss != [] {
      var n := |ss| - 1;
      FlattenLength(ss[..n], k);
      assert k * |ss| == k * n + k;
    }
  }
}
