/** `Array.prototype.filter` and the facts about it that the listings rely on. */
module Seqs {

  /** `s.filter(p)`: the elements satisfying p, in their original order. */
  function Filter<T>(s: seq<T>, p: T -> bool): (r: seq<T>)
    ensures |r| <= |s|
  {
    if s == [] then [] else (if p(s[0]) then [s[0]] else []) + Filter(s[1..], p)
  }

  /** The positions of s that `Filter` keeps, in increasing order. */
  function KeptIndices<T>(s: seq<T>, p: T -> bool): seq<nat>
  {
    if s == [] then []
    else (if p(s[0]) then [0] else []) + Shift(KeptIndices(s[1..], p))
  }

  function Shift(idx: seq<nat>): (r: seq<nat>)
    ensures |r| == |idx| && forall k :: 0 <= k < |idx| ==> r[k] == idx[k] + 1
  {
    seq(|idx|, k requires 0 <= k < |idx| => idx[k] + 1)
  }

  predicate Increasing(idx: seq<nat>) {
    forall k, l :: 0 <= k < l < |idx| ==> idx[k] < idx[l]
  }

  /**
   * `r` is an order-preserving subsequence of `s`, picked out by the positions `idx`.
   */
  ghost predicate SubsequenceAt<T>(r: seq<T>, s: seq<T>, idx: seq<nat>) {
    && |idx| == |r|
    && Increasing(idx)
    && (forall k :: 0 <= k < |r| ==> idx[k] < |s| && r[k] == s[idx[k]])
  }

  lemma ShiftMembers(idx: seq<nat>, i: nat)
    ensures i in Shift(idx) <==> i >= 1 && (i - 1) in idx
  {
    var sh := Shift(idx);
    if i in sh {
      var k :| 0 <= k < |sh| && sh[k] == i;
      assert idx[k] == i - 1;
    }
    if i >= 1 && (i - 1) in idx {
      var k :| 0 <= k < |idx| && idx[k] == i - 1;
      assert sh[k] == i;
    }
  }

  lemma ShiftedSubsequence<T>(r: seq<T>, s: seq<T>, idx: seq<nat>)
    requires s != [] && SubsequenceAt(r, s[1..], idx)
    ensures SubsequenceAt(r, s, Shift(idx))
    ensures forall k :: 0 <= k < |idx| ==> Shift(idx)[k] >= 1
  {
    var sh := Shift(idx);
    forall k, l | 0 <= k < l < |sh| ensures sh[k] < sh[l] {
      assert idx[k] < idx[l];
    }
    forall k | 0 <= k < |sh| ensures sh[k] < |s| && r[k] == s[sh[k]] {
      assert r[k] == s[1..][idx[k]];
    }
  }

  lemma ConsSubsequence<T>(r: seq<T>, s: seq<T>, idx: seq<nat>)
    requires s != [] && SubsequenceAt(r, s, idx)
    requires forall k :: 0 <= k < |idx| ==> idx[k] >= 1
    ensures SubsequenceAt([s[0]] + r, s, [0] + idx)
  {
    var r', idx' := [s[0]] + r, [0] + idx;
    forall k | 0 <= k < |r'| ensures idx'[k] < |s| && r'[k] == s[idx'[k]] {
      if k > 0 {
        assert r'[k] == r[k - 1] && idx'[k] == idx[k - 1];
      }
    }
    forall k, l | 0 <= k < l < |idx'| ensures idx'[k] < idx'[l] {
      assert idx'[l] == idx[l - 1];
      if k > 0 {
        assert idx'[k] == idx[k - 1];
      }
    }
  }

  /** The result of `filter` is an order-preserving subsequence of the input. */
  lemma {:induction false} FilterIsSubsequence<T>(s: seq<T>, p: T -> bool)
    ensures SubsequenceAt(Filter(s, p), s, KeptIndices(s, p))
  {
    if s != [] {
      var tail, tidx := Filter(s[1..], p), KeptIndices(s[1..], p);
      FilterIsSubsequence(s[1..], p);
      ShiftedSubsequence(tail, s, tidx);
      if p(s[0]) {
        ConsSubsequence(tail, s, Shift(tidx));
        assert Filter(s, p) == [s[0]] + tail && KeptIndices(s, p) == [0] + Shift(tidx);
      } else {
        assert Filter(s, p) == tail && KeptIndices(s, p) == Shift(tidx);
      }
    }
  }

  /** A position is kept exactly when its element satisfies the predicate. */
  lemma {:induction false} KeptIndicesMembers<T>(s: seq<T>, p: T -> bool)
    ensures forall i :: 0 <= i < |s| ==> (i in KeptIndices(s, p) <==> p(s[i]))
  {
    if s != [] {
      var tidx := KeptIndices(s[1..], p);
      KeptIndicesMembers(s[1..], p);
      var idx := KeptIndices(s, p);
      forall i | 0 <= i < |s| ensures i in idx <==> p(s[i]) {
        ShiftMembers(tidx, i);
        if i > 0 {
          assert s[1..][i - 1] == s[i];
        }
      }
    }
  }

  /** An element is in the filtered sequence exactly when it is in the input and passes. */
  lemma {:induction false} FilterMembers<T>(s: seq<T>, p: T -> bool)
    ensures forall x :: x in Filter(s, p) <==> x in s && p(x)
  {
    if s != [] {
      FilterMembers(s[1..], p);
      assert s == [s[0]] + s[1..];
    }
  }

  /** Filtering twice is filtering once by the conjunction. */
  lemma {:induction false} FilterCompose<T>(s: seq<T>, p: T -> bool, q: T -> bool, pq: T -> bool)
    requires forall x :: pq(x) == (p(x) && q(x))
    ensures Filter(Filter(s, p), q) == Filter(s, pq)
  {
    if s != [] {
      FilterCompose(s[1..], p, q, pq);
      var head := if p(s[0]) then [s[0]] else [];
      FilterAppend(head, Filter(s[1..], p), q);
    }
  }

  /** A predicate that every element passes keeps the whole sequence. */
  lemma {:induction false} FilterKeepsAll<T>(s: seq<T>, p: T -> bool)
    requires forall i :: 0 <= i < |s| ==> p(s[i])
    ensures Filter(s, p) == s
  {
    if s != [] {
      FilterKeepsAll(s[1..], p);
    }
  }

  /** Filtering distributes over concatenation. */
  lemma {:induction false} FilterAppend<T>(a: seq<T>, b: seq<T>, p: T -> bool)
    ensures Filter(a + b, p) == Filter(a, p) + Filter(b, p)
  {
    if a != [] {
      assert (a + b)[1..] == a[1..] + b;
      FilterAppend(a[1..], b, p);
    } else {
      assert a + b == b;
    }
  }

  /** Every earlier element has a key at least as large as every later one. */
  ghost predicate Descending<T>(s: seq<T>, key: T -> int) {
    forall i, j :: 0 <= i < j < |s| ==> key(s[i]) >= key(s[j])
  }

  /** Insert `x` into a descending sequence, ahead of the elements with the same key. */
  function InsertDesc<T>(x: T, s: seq<T>, key: T -> int): (r: seq<T>)
    ensures |r| == |s| + 1
    ensures r[0] == x || (s != [] && r[0] == s[0])
  {
    if s == [] || key(x) >= key(s[0]) then [x] + s
    else [s[0]] + InsertDesc(x, s[1..], key)
  }

  /** Insertion sort by descending key; elements with equal keys keep their order. */
  function SortDesc<T>(s: seq<T>, key: T -> int): (r: seq<T>)
    ensures |r| == |s|
  {
    if s == [] then [] else InsertDesc(s[0], SortDesc(s[1..], key), key)
  }

  lemma {:induction false} InsertDescSpec<T>(x: T, s: seq<T>, key: T -> int)
    requires Descending(s, key)
    ensures Descending(InsertDesc(x, s, key), key)
    ensures multiset(InsertDesc(x, s, key)) == multiset(s) + multiset{x}
  {
    if s != [] && key(x) < key(s[0]) {
      var rest := s[1..];
      assert Descending(rest, key) by {
        forall i, j | 0 <= i < j < |rest| ensures key(rest[i]) >= key(rest[j]) {
          assert rest[i] == s[i + 1] && rest[j] == s[j + 1];
        }
      }
      InsertDescSpec(x, rest, key);
      var tail := InsertDesc(x, rest, key);
      var r := [s[0]] + tail;
      assert key(s[0]) >= key(tail[0]) by {
        if tail[0] != x { assert tail[0] == s[1]; }
      }
      forall i, j | 0 <= i < j < |r| ensures key(r[i]) >= key(r[j]) {
        assert r[j] == tail[j - 1];
        if i > 0 {
          assert r[i] == tail[i - 1];
        } else if j > 1 {
          assert key(tail[0]) >= key(tail[j - 1]);
        }
      }
      assert s == [s[0]] + rest;
    }
  }

  /** The sort returns a permutation of its input in descending key order. */
  lemma {:induction false} SortDescSpec<T>(s: seq<T>, key: T -> int)
    ensures Descending(SortDesc(s, key), key)
    ensures multiset(SortDesc(s, key)) == multiset(s)
  {
    if s != [] {
      SortDescSpec(s[1..], key);
      InsertDescSpec(s[0], SortDesc(s[1..], key), key);
      assert s == [s[0]] + s[1..];
    }
  }

  /** Filtering depends only on what the predicate answers. */
  lemma {:induction false} FilterExt<T>(s: seq<T>, p: T -> bool, q: T -> bool)
    requires forall x :: p(x) == q(x)
    ensures Filter(s, p) == Filter(s, q)
  {
    if s != [] {
      FilterExt(s[1..], p, q);
    }
  }
}
