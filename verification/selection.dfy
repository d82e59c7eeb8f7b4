/**
 * What `Array.prototype.filter` promises: the elements that pass, every copy
 * of them, in the order they come in.
 */
module Selection {
  /**
   * `idx` lists, in increasing order, exactly the positions of `s` whose
   * element passes `p`, and `r` holds the elements at those positions.
   */
  ghost predicate PicksAt<T>(r: seq<T>, s: seq<T>, p: T -> bool, idx: seq<int>) {
    && |idx| == |r|
    && (forall k :: 0 <= k < |idx| ==> 0 <= idx[k] < |s| && s[idx[k]] == r[k] && p(r[k]))
    && (forall k, l :: 0 <= k < l < |idx| ==> idx[k] < idx[l])
    && (forall i :: 0 <= i < |s| && p(s[i]) ==> i in idx)
  }

  /** `r` is `s.filter(p)`: the elements of `s` that pass `p`, with their copies, in their order. */
  ghost predicate IsFilter<T>(r: seq<T>, s: seq<T>, p: T -> bool) {
    exists idx :: PicksAt(r, s, p, idx)
  }

  lemma FilterNil<T>(p: T -> bool)
    ensures IsFilter([], [], p)
  {
    assert PicksAt([], [], p, []);
  }

  /** Filtering `s` is testing its first element and filtering the rest. */
  lemma FilterCons<T>(r: seq<T>, s: seq<T>, p: T -> bool)
    requires s != [] && IsFilter(r, s[1..], p)
    ensures IsFilter(if p(s[0]) then [s[0]] + r else r, s, p)
  {
    var idx :| PicksAt(r, s[1..], p, idx);
    var sh := Shifted(idx);
    ShiftedPicks(r, s, p, idx);
    if p(s[0]) {
      PickFirst(r, s, p, sh);
    } else {
      assert PicksAt(r, s, p, sh);
    }
  }

  /** Every position one further on. */
  function Shifted(idx: seq<int>): (sh: seq<int>)
    ensures |sh| == |idx| && forall k :: 0 <= k < |idx| ==> sh[k] == idx[k] + 1
  {
    seq(|idx|, k requires 0 <= k < |idx| => idx[k] + 1)
  }

  /** The positions picked in `s[1..]`, one further on, are the ones picked in `s` after its first element. */
  lemma ShiftedPicks<T>(r: seq<T>, s: seq<T>, p: T -> bool, idx: seq<int>)
    requires s != [] && PicksAt(r, s[1..], p, idx)
    ensures var sh := Shifted(idx);
      && |sh| == |r|
      && (forall k :: 0 <= k < |sh| ==> 1 <= sh[k] < |s| && s[sh[k]] == r[k] && p(r[k]))
      && (forall k, l :: 0 <= k < l < |sh| ==> sh[k] < sh[l])
      && (forall i :: 1 <= i < |s| && p(s[i]) ==> i in sh)
  {
    var sh := Shifted(idx);
    forall k | 0 <= k < |sh| ensures 1 <= sh[k] < |s| && s[sh[k]] == r[k] {
      assert s[1..][idx[k]] == s[idx[k] + 1];
    }
    forall i | 1 <= i < |s| && p(s[i]) ensures i in sh {
      assert s[1..][i - 1] == s[i];
      assert i - 1 in idx;
      var k :| 0 <= k < |idx| && idx[k] == i - 1;
      assert sh[k] == i;
    }
  }

  /** A first element that passes is picked in front of the rest. */
  lemma PickFirst<T>(r: seq<T>, s: seq<T>, p: T -> bool, sh: seq<int>)
    requires s != [] && p(s[0])
    requires |sh| == |r|
    requires forall k :: 0 <= k < |sh| ==> 1 <= sh[k] < |s| && s[sh[k]] == r[k] && p(r[k])
    requires forall k, l :: 0 <= k < l < |sh| ==> sh[k] < sh[l]
    requires forall i :: 1 <= i < |s| && p(s[i]) ==> i in sh
    ensures PicksAt([s[0]] + r, s, p, [0] + sh)
  {
    var out := [0] + sh;
    var rr := [s[0]] + r;
    assert forall k :: 0 < k < |out| ==> out[k] == sh[k - 1] && rr[k] == r[k - 1];
    forall i | 0 <= i < |s| && p(s[i]) ensures i in out {
      if i > 0 {
        assert i in sh;
      }
    }
  }
}
