/**
 * Page arithmetic shared by the listing screens and the movement query:
 * `Math.ceil(a / b)` on integers and `Array.prototype.slice`.
 */
module Paging {

  /** `Math.ceil(a / b)` for a non-zero integer divisor. */
  function CeilDiv(a: int, b: int): int
    requires b != 0
  {
    if b > 0 && a % b != 0 then a / b + 1 else a / b
  }

  /** CeilDiv(a, b) is the least c with c >= a / b. */
  lemma CeilDivSpec(a: int, b: int)
    requires b != 0
    ensures var c := CeilDiv(a, b);
      && (b > 0 ==> b * (c - 1) < a <= b * c)
      && (b < 0 ==> b * c <= a < b * (c - 1))
  {
    var q, r := a / b, a % b;
    assert a == b * q + r && 0 <= r;
    assert b * (q + 1) == b * q + b;
    assert b * (q - 1) == b * q - b;
  }

  /** A negative slice bound counts from the end; every bound is clamped to the length. */
  function ClampIndex(i: int, n: nat): (k: nat)
    ensures k <= n
    ensures 0 <= i <= n ==> k == i
  {
    if i < 0 then (if n + i < 0 then 0 else n + i) else if i > n then n else i
  }

  /** `s.slice(start, end)` */
  function Slice<T>(s: seq<T>, start: int, end: int): seq<T> {
    var b, e := ClampIndex(start, |s|), ClampIndex(end, |s|);
    if b < e then s[b..e] else []
  }

  function Min(a: int, b: int): int {
    if a <= b then a else b
  }

  /** Page `page` (counted from 1) of `size` items: `s.slice((page - 1) * size, page * size)`. */
  function PageOf<T>(s: seq<T>, page: int, size: int): seq<T> {
    Slice(s, (page - 1) * size, page * size)
  }

  lemma MulStep(k: int, size: int)
    requires k >= 1 && size >= 1
    ensures k * size == (k - 1) * size + size && (k - 1) * size >= 0
  {
  }

  /** A page holds at most `size` items, namely those at positions (page-1)*size onwards. */
  lemma PageContents<T>(s: seq<T>, page: int, size: int)
    requires page >= 1 && size >= 1
    ensures (page - 1) * size < |s| ==>
              PageOf(s, page, size) == s[(page - 1) * size..Min(page * size, |s|)]
    ensures (page - 1) * size >= |s| ==> PageOf(s, page, size) == []
    ensures |PageOf(s, page, size)| <= size
  {
    MulStep(page, size);
  }

  /** The first k pages, one after another. */
  function FirstPages<T>(s: seq<T>, size: int, k: nat): seq<T> {
    if k == 0 then [] else FirstPages(s, size, k - 1) + PageOf(s, k, size)
  }

  lemma {:induction false} FirstPagesArePrefix<T>(s: seq<T>, size: int, k: nat)
    requires size >= 1
    ensures FirstPages(s, size, k) == s[..Min(k * size, |s|)]
  {
    if k > 0 {
      FirstPagesArePrefix(s, size, k - 1);
      var lo, hi := (k - 1) * size, k * size;
      MulStep(k, size);
      PageContents(s, k, size);
      if lo < |s| {
        assert s[..lo] + s[lo..Min(hi, |s|)] == s[..Min(hi, |s|)];
      } else {
        assert Min(lo, |s|) == |s| == Min(hi, |s|);
      }
    }
  }

  /**
   * The pages 1 .. ceil(|s| / size) partition s: laid end to end they give back s,
   * none of them is empty, and every page after the last one is empty.
   */
  lemma PagesPartition<T>(s: seq<T>, size: int)
    requires size >= 1
    ensures CeilDiv(|s|, size) >= 0
    ensures FirstPages(s, size, CeilDiv(|s|, size)) == s
    ensures forall p :: 1 <= p <= CeilDiv(|s|, size) ==> PageOf(s, p, size) != []
    ensures forall p :: p > CeilDiv(|s|, size) ==> PageOf(s, p, size) == []
  {
    var n := CeilDiv(|s|, size);
    CeilBounds(|s|, size);
    FirstPagesArePrefix(s, size, n);
    assert s[..Min(n * size, |s|)] == s;
    forall p | 1 <= p <= n ensures PageOf(s, p, size) != [] {
      PageWithinCeil(s, p, size);
    }
    forall p | p > n ensures PageOf(s, p, size) == [] {
      PageBeyondCeil(s, p, size);
    }
  }

  lemma PageWithinCeil<T>(s: seq<T>, p: int, size: int)
    requires size >= 1 && 1 <= p <= CeilDiv(|s|, size)
    ensures PageOf(s, p, size) != []
  {
    var n := CeilDiv(|s|, size);
    CeilBounds(|s|, size);
    MulMono(p - 1, n - 1, size);
    PageContents(s, p, size);
    MulStep(p, size);
  }

  lemma PageBeyondCeil<T>(s: seq<T>, p: int, size: int)
    requires size >= 1 && p > CeilDiv(|s|, size)
    ensures PageOf(s, p, size) == []
  {
    var n := CeilDiv(|s|, size);
    CeilBounds(|s|, size);
    MulMono(n, p - 1, size);
    PageContents(s, p, size);
  }

  lemma CeilBounds(a: nat, size: int)
    requires size >= 1
    ensures CeilDiv(a, size) >= 0
    ensures (CeilDiv(a, size) - 1) * size < a <= CeilDiv(a, size) * size
  {
    var n := CeilDiv(a, size);
    CeilDivSpec(a, size);
    if n < 0 {
      MulMono(n, -1, size);
    }
  }

  lemma MulMono(a: int, b: int, size: int)
    requires a <= b && size >= 1
    ensures a * size <= b * size
  {
    assert b * size - a * size == (b - a) * size;
  }
}
