/** Page arithmetic shared by the store's listing and the two front-end pagers. */
module Paging {

  function Min(a: int, b: int): int {
    if a <= b then a else b
  }

  /** `Math.ceil(n / size)` for a non-negative count and a positive page size. */
  function CeilDiv(n: nat, size: nat): (r: nat)
    requires size > 0
    ensures r * size >= n
    ensures r == 0 || (r - 1) * size < n
    ensures r == 0 <==> n == 0
  {
    var r := (n + size - 1) / size;
    assert r * size + (n + size - 1) % size == n + size - 1;
    r
  }

  /** The items left after skipping `skip` of them and keeping at most `limit`. */
  function Window<T>(s: seq<T>, skip: nat, limit: nat): (w: seq<T>)
    ensures |w| == if skip >= |s| then 0 else Min(limit, |s| - skip)
    ensures forall k :: 0 <= k < |w| ==> w[k] == s[skip + k]
  {
    if skip >= |s| then [] else s[skip..Min(skip + limit, |s|)]
  }

  /** Page `page` (counted from 1) of `s` with `size` items per page. */
  function Page<T>(s: seq<T>, page: nat, size: nat): seq<T>
    requires page >= 1
  {
    Window(s, (page - 1) * size, size)
  }

  /** Pages 1 to `n` laid end to end. */
  function FirstPages<T>(s: seq<T>, size: nat, n: nat): seq<T> {
    if n == 0 then [] else FirstPages(s, size, n - 1) + Page(s, n, size)
  }

  lemma {:induction false} FirstPagesArePrefix<T>(s: seq<T>, size: nat, n: nat)
    requires size > 0
    ensures FirstPages(s, size, n) == s[..Min(n * size, |s|)]
  {
    if n > 0 {
      FirstPagesArePrefix(s, size, n - 1);
      var lo := Min((n - 1) * size, |s|);
      var hi := Min(n * size, |s|);
      assert (n - 1) * size + size == n * size;
      assert Page(s, n, size) == s[lo..hi];
      assert s[..lo] + s[lo..hi] == s[..hi];
    }
  }

  /** The pages 1..ceil(|s|/size) together hold every item exactly once, in order. */
  lemma PagesPartition<T>(s: seq<T>, size: nat)
    requires size > 0
    ensures FirstPages(s, size, CeilDiv(|s|, size)) == s
  {
    FirstPagesArePrefix(s, size, CeilDiv(|s|, size));
  }

  /** A page past the last one is empty; every page holds at most `size` items. */
  lemma PageBounds<T>(s: seq<T>, page: nat, size: nat)
    requires size > 0 && page >= 1
    ensures |Page(s, page, size)| <= size
    ensures page > CeilDiv(|s|, size) ==> Page(s, page, size) == []
  {
    if page > CeilDiv(|s|, size) {
      assert (page - 1) * size >= CeilDiv(|s|, size) * size;
    }
  }
}
