/**
 * `POST /api/products/batch` (backend/src/index.js): every item of the body
 * becomes `updateOne({ sku: p.sku }, { $set: p }, { upsert: true })` and the
 * operations are applied in order.
 *
 * The store is a map from record id to document. When several records hold
 * the sku an `updateOne` filters by, the store promises none of them; the
 * model updates the one with the smallest id, as its own choice. A
 * missing `sku` field reads as `null` on both sides, the way the filter
 * `{ sku: null }` matches a record without the field.
 */
module BulkUpsert {
  import opened Wrappers
  import opened Documents

  /** The product records by id; `next` is the id the next insert receives. */
  datatype Records = Records(docs: map<nat, Doc>, next: nat)

  /** Every id in use was handed out before `next`. */
  predicate Valid(r: Records) {
    forall id :: id in r.docs ==> id < r.next
  }

  function Sku(d: Doc): Value {
    Field(d, "sku")
  }

  // ---------------------------------------------------------------------------
  // One operation
  // ---------------------------------------------------------------------------

  /** The smallest id at or after `i` whose record holds sku `k`. */
  function TargetFrom(r: Records, k: Value, i: nat): (t: Option<nat>)
    ensures t.Some? ==> t.value in r.docs
    decreases r.next - i
  {
    if i >= r.next then None
    else if i in r.docs && Sku(r.docs[i]) == k then Some(i)
    else TargetFrom(r, k, i + 1)
  }

  /** The record the filter `{ sku: k }` reaches in the model: the smallest id, the model's choice among records holding that sku, if any. */
  function Target(r: Records, k: Value): (t: Option<nat>)
    ensures t.Some? ==> t.value in r.docs
  {
    TargetFrom(r, k, 0)
  }

  /** The scan from `i` finds the smallest id at or after `i` holding sku `k`, or reports there is none. */
  lemma {:induction false} TargetFromSpec(r: Records, k: Value, i: nat)
    ensures var t := TargetFrom(r, k, i);
      && (t.Some? ==> i <= t.value < r.next && t.value in r.docs && Sku(r.docs[t.value]) == k)
      && (t.Some? ==> forall j :: j in r.docs && i <= j && Sku(r.docs[j]) == k ==> t.value <= j)
      && (t.None? ==> forall j :: j in r.docs && i <= j < r.next ==> Sku(r.docs[j]) != k)
    decreases r.next - i
  {
    if i < r.next && !(i in r.docs && Sku(r.docs[i]) == k) {
      TargetFromSpec(r, k, i + 1);
    }
  }

  /** `Target` is the smallest id holding sku `k`, and `None` only when no record below `next` holds it. */
  lemma TargetSpec(r: Records, k: Value)
    ensures var t := Target(r, k);
      && (t.Some? ==> t.value < r.next && t.value in r.docs && Sku(r.docs[t.value]) == k)
      && (t.Some? ==> forall j :: j in r.docs && Sku(r.docs[j]) == k ==> t.value <= j)
      && (t.None? ==> forall j :: j in r.docs && j < r.next ==> Sku(r.docs[j]) != k)
  {
    TargetFromSpec(r, k, 0);
  }

  /**
   * `updateOne({ sku: p.sku }, { $set: p }, { upsert: true })`: the fields of
   * `p` overwrite those of the target record; with no target, a new record
   * holding the filter's sku and the fields of `p` is inserted.
   */
  function UpdateOne(r: Records, p: Doc): Records {
    match Target(r, Sku(p))
    case Some(t) => Records(r.docs[t := r.docs[t] + p], r.next)
    case None => Records(r.docs[r.next := map["sku" := Sku(p)] + p], r.next + 1)
  }

  /** The operations of a batch applied in order (an ordered `bulkWrite`). */
  function ApplyBatch(r: Records, batch: seq<Doc>): Records {
    if batch == [] then r
    else UpdateOne(ApplyBatch(r, batch[..|batch| - 1]), batch[|batch| - 1])
  }

  /** Every item of the batch for sku `k`, overlaid in order: the last one wins field by field. */
  function Merge(batch: seq<Doc>, k: Value): Doc {
    if batch == [] then map[]
    else Merge(batch[..|batch| - 1], k) + (if Sku(batch[|batch| - 1]) == k then batch[|batch| - 1] else map[])
  }

  // ---------------------------------------------------------------------------
  // The result the driver reports
  // ---------------------------------------------------------------------------

  datatype BulkResult = BulkResult(matchedCount: nat, modifiedCount: nat, upsertedCount: nat)

  /** Whether the operation for `p` inserts a record. */
  predicate Inserts(r: Records, p: Doc) {
    Target(r, Sku(p)).None?
  }

  /** Whether the operation for `p` matches a record and changes it. */
  predicate Modifies(r: Records, p: Doc) {
    match Target(r, Sku(p))
    case Some(t) => r.docs[t] + p != r.docs[t]
    case None => false
  }

  /** The counts of an ordered batch: one match or one insert per item, and the matches that changed a record. */
  function Summary(r: Records, batch: seq<Doc>): (s: BulkResult)
    ensures s.matchedCount + s.upsertedCount == |batch|
    ensures s.modifiedCount <= s.matchedCount
  {
    if batch == [] then BulkResult(0, 0, 0)
    else
      var before := ApplyBatch(r, batch[..|batch| - 1]);
      var p := batch[|batch| - 1];
      var s := Summary(r, batch[..|batch| - 1]);
      if Inserts(before, p) then s.(upsertedCount := s.upsertedCount + 1)
      else if Modifies(before, p) then s.(matchedCount := s.matchedCount + 1, modifiedCount := s.modifiedCount + 1)
      else s.(matchedCount := s.matchedCount + 1)
  }

  // ---------------------------------------------------------------------------
  // What a batch leaves behind
  // ---------------------------------------------------------------------------

  /** What record `id` was before the batch, or the `{ sku }` seed an insert starts from. */
  function Before(s: Records, id: nat, k: Value): Doc {
    if id in s.docs then s.docs[id] else map["sku" := k]
  }

  /**
   * Record `id` of `r` is its state in `s` overlaid with every item for its
   * sku when it is that sku's target, and is untouched otherwise.
   */
  predicate Overlaid(s: Records, batch: seq<Doc>, r: Records, id: nat)
    requires id in r.docs
  {
    var k := Sku(r.docs[id]);
    if Target(r, k) == Some(id) then r.docs[id] == Before(s, id, k) + Merge(batch, k)
    else id in s.docs && r.docs[id] == s.docs[id]
  }

  /** Every item's sku already has a record in `s`. */
  predicate AllPresent(s: Records, batch: seq<Doc>) {
    forall i :: 0 <= i < |batch| ==> Target(s, Sku(batch[i])).Some?
  }

  /** The relation between the records before (`s`) and after (`r`) a batch. */
  predicate BatchInv(s: Records, batch: seq<Doc>, r: Records) {
    && Valid(r) && s.next <= r.next
    && (forall id :: id in s.docs ==> id in r.docs && Sku(r.docs[id]) == Sku(s.docs[id]))
    && (forall id :: id in r.docs ==> Overlaid(s, batch, r, id))
    && AllPresent(r, batch)
    && (AllPresent(s, batch) ==> r.next == s.next && r.docs.Keys == s.docs.Keys)
  }

  /** Overlaying a document with one that carries the same sku keeps the sku. */
  lemma SkuOverlay(d: Doc, p: Doc)
    requires Sku(d) == Sku(p)
    ensures Sku(d + p) == Sku(p)
  {
  }

  /** A record holding sku `k` that is older than every other such record is the target of `k`. */
  lemma TargetUnique(r: Records, k: Value, t: nat)
    requires t < r.next && t in r.docs && Sku(r.docs[t]) == k
    requires forall j :: j in r.docs && Sku(r.docs[j]) == k ==> t <= j
    ensures Target(r, k) == Some(t)
  {
    TargetSpec(r, k);
  }

  /** Two record sets with the same ids and the same skus have the same targets. */
  lemma TargetsAgree(r: Records, r2: Records)
    requires r.next == r2.next && r.docs.Keys == r2.docs.Keys
    requires forall id :: id in r.docs ==> Sku(r.docs[id]) == Sku(r2.docs[id])
    ensures forall k :: Target(r, k) == Target(r2, k)
  {
    forall k ensures Target(r, k) == Target(r2, k) {
      TargetSpec(r, k);
      TargetSpec(r2, k);
      var t, t2 := Target(r, k), Target(r2, k);
      if t.Some? && t2.Some? {
        assert t.value <= t2.value && t2.value <= t.value;
      }
    }
  }

  /** Items for other skus leave a merge as it is. */
  lemma {:induction false} MergeAbsent(batch: seq<Doc>, k: Value)
    requires forall i :: 0 <= i < |batch| ==> Sku(batch[i]) != k
    ensures Merge(batch, k) == map[]
  {
    if batch != [] {
      MergeAbsent(batch[..|batch| - 1], k);
      assert Merge(batch, k) == map[] + map[];
    }
  }

  /** Appending an item changes only the merge for its own sku. */
  lemma MergeStep(batch: seq<Doc>, p: Doc, k: Value)
    ensures Merge(batch + [p], k) == if Sku(p) == k then Merge(batch, k) + p else Merge(batch, k)
  {
    var b2 := batch + [p];
    assert b2[..|b2| - 1] == batch;
    if Sku(p) != k {
      assert Merge(batch, k) + map[] == Merge(batch, k);
    }
  }

  /** A record the step leaves alone stays overlaid, as long as it is not the target of the item's sku. */
  lemma OverlaidKept(s: Records, batch: seq<Doc>, r: Records, r2: Records, p: Doc, id: nat)
    requires id in r.docs && id in r2.docs && r2.docs[id] == r.docs[id]
    requires Overlaid(s, batch, r, id)
    requires Target(r2, Sku(r.docs[id])) == Target(r, Sku(r.docs[id]))
    requires Target(r, Sku(r.docs[id])) == Some(id) ==> Sku(r.docs[id]) != Sku(p)
    ensures Overlaid(s, batch + [p], r2, id)
  {
    MergeStep(batch, p, Sku(r.docs[id]));
  }

  /** The target the step writes to stays overlaid, now with the item on top. */
  lemma OverlaidHitTarget(s: Records, batch: seq<Doc>, r: Records, r2: Records, p: Doc, t: nat)
    requires t in r.docs && t in r2.docs && r2.docs[t] == r.docs[t] + p
    requires Sku(r.docs[t]) == Sku(p) && Sku(r2.docs[t]) == Sku(p)
    requires Overlaid(s, batch, r, t)
    requires Target(r, Sku(p)) == Some(t) && Target(r2, Sku(p)) == Some(t)
    ensures Overlaid(s, batch + [p], r2, t)
  {
    var k := Sku(p);
    var m := Merge(batch, k);
    MergeStep(batch, p, k);
    assert (Before(s, t, k) + m) + p == Before(s, t, k) + (m + p);
  }

  /** Every record stays overlaid when the item's sku already has a target. */
  lemma HitOverlaid(s: Records, batch: seq<Doc>, r: Records, p: Doc, t: nat)
    requires forall id :: id in r.docs ==> Overlaid(s, batch, r, id)
    requires Target(r, Sku(p)) == Some(t)
    ensures forall id :: id in UpdateOne(r, p).docs ==> Overlaid(s, batch + [p], UpdateOne(r, p), id)
  {
    var k := Sku(p);
    var r2 := UpdateOne(r, p);
    TargetSpec(r, k);
    assert r2.docs == r.docs[t := r.docs[t] + p] && r2.next == r.next;
    SkuOverlay(r.docs[t], p);
    TargetsAgree(r, r2);
    forall id | id in r2.docs ensures Overlaid(s, batch + [p], r2, id) {
      assert Overlaid(s, batch, r, id);
      if id == t {
        OverlaidHitTarget(s, batch, r, r2, p, t);
      } else {
        OverlaidKept(s, batch, r, r2, p, id);
      }
    }
  }

  /** After a step that keeps every sku's target, every item's sku so far still has a target. */
  lemma HitPresence(r: Records, batch: seq<Doc>, p: Doc, r2: Records)
    requires AllPresent(r, batch) && Target(r, Sku(p)).Some?
    requires forall k :: Target(r, k) == Target(r2, k)
    ensures AllPresent(r2, batch + [p])
  {
    var b2 := batch + [p];
    forall i | 0 <= i < |b2| ensures Target(r2, Sku(b2[i])).Some? {
      if i < |batch| {
        assert b2[i] == batch[i];
      }
    }
  }

  /** A batch whose skus all had records before has a prefix whose skus all had records. */
  lemma PresentPrefix(s: Records, batch: seq<Doc>, p: Doc)
    requires AllPresent(s, batch + [p])
    ensures AllPresent(s, batch)
  {
    var b2 := batch + [p];
    forall i | 0 <= i < |batch| ensures Target(s, Sku(batch[i])).Some? {
      assert b2[i] == batch[i];
    }
  }

  /** The step of `BatchOverlay` where the item's sku has a target. */
  lemma OverlayHit(s: Records, batch: seq<Doc>, r: Records, p: Doc, t: nat)
    requires Valid(s) && BatchInv(s, batch, r)
    requires Target(r, Sku(p)) == Some(t)
    ensures BatchInv(s, batch + [p], UpdateOne(r, p))
  {
    var r2 := UpdateOne(r, p);
    TargetSpec(r, Sku(p));
    assert r2.docs == r.docs[t := r.docs[t] + p] && r2.next == r.next;
    SkuOverlay(r.docs[t], p);
    TargetsAgree(r, r2);
    HitOverlaid(s, batch, r, p, t);
    HitPresence(r, batch, p, r2);
    if AllPresent(s, batch + [p]) {
      PresentPrefix(s, batch, p);
    }
  }

  /** Inserting a record with a sku no record holds leaves the other skus' targets alone. */
  lemma TargetsAfterInsert(r: Records, r2: Records, k: Value)
    requires Valid(r) && Target(r, k).None?
    requires r2.next == r.next + 1 && r.next in r2.docs && Sku(r2.docs[r.next]) == k
    requires r2.docs == r.docs[r.next := r2.docs[r.next]]
    ensures Target(r2, k) == Some(r.next)
    ensures forall x :: x != k ==> Target(r2, x) == Target(r, x)
  {
    TargetSpec(r, k);
    TargetUnique(r2, k, r.next);
    forall x | x != k ensures Target(r2, x) == Target(r, x) {
      TargetSpec(r, x);
      TargetSpec(r2, x);
      var t, t2 := Target(r, x), Target(r2, x);
      if t.Some? {
        assert r2.docs[t.value] == r.docs[t.value];
      }
      if t2.Some? {
        assert t2.value != r.next;
        assert r2.docs[t2.value] == r.docs[t2.value];
      }
      if t.Some? && t2.Some? {
        assert t.value <= t2.value && t2.value <= t.value;
      }
    }
  }

  /** The record an insert creates is overlaid: the `{ sku }` seed with the item on top. */
  lemma OverlaidInserted(s: Records, batch: seq<Doc>, r2: Records, p: Doc, n: nat)
    requires n in r2.docs && n !in s.docs
    requires r2.docs[n] == map["sku" := Sku(p)] + p && Sku(r2.docs[n]) == Sku(p)
    requires Target(r2, Sku(p)) == Some(n)
    requires Merge(batch, Sku(p)) == map[]
    ensures Overlaid(s, batch + [p], r2, n)
  {
    var k := Sku(p);
    MergeStep(batch, p, k);
    assert Merge(batch + [p], k) == p by {
      assert map[] + p == p;
    }
    assert Before(s, n, k) == map["sku" := k];
  }

  /** Every record stays overlaid when the item's sku gets a new record. */
  lemma InsertOverlaid(s: Records, batch: seq<Doc>, r: Records, p: Doc)
    requires Valid(s) && Valid(r) && s.next <= r.next
    requires forall id :: id in r.docs ==> Overlaid(s, batch, r, id)
    requires AllPresent(r, batch)
    requires Target(r, Sku(p)).None?
    ensures forall id :: id in UpdateOne(r, p).docs ==> Overlaid(s, batch + [p], UpdateOne(r, p), id)
  {
    var k := Sku(p);
    var n := r.next;
    var r2 := UpdateOne(r, p);
    assert r2.docs == r.docs[n := map["sku" := k] + p] && r2.next == n + 1;
    assert n !in r.docs && n !in s.docs;
    SkuOverlay(map["sku" := k], p);
    TargetsAfterInsert(r, r2, k);
    TargetSpec(r, k);
    assert forall i :: 0 <= i < |batch| ==> Sku(batch[i]) != k;
    MergeAbsent(batch, k);
    forall id | id in r2.docs ensures Overlaid(s, batch + [p], r2, id) {
      if id == n {
        OverlaidInserted(s, batch, r2, p, n);
      } else {
        assert Overlaid(s, batch, r, id);
        OverlaidKept(s, batch, r, r2, p, id);
      }
    }
  }

  /** An item whose sku has no record cannot have had one before the batch either. */
  lemma InsertedSkuWasAbsent(s: Records, batch: seq<Doc>, r: Records, p: Doc)
    requires Valid(r)
    requires forall id :: id in s.docs ==> id in r.docs && Sku(r.docs[id]) == Sku(s.docs[id])
    requires Target(r, Sku(p)).None?
    ensures !AllPresent(s, batch + [p])
  {
    var b2 := batch + [p];
    var k := Sku(p);
    TargetSpec(r, k);
    assert forall j :: j in s.docs ==> Sku(s.docs[j]) != k;
    TargetSpec(s, k);
    assert Target(s, k).None?;
    assert b2[|batch|] == p;
  }

  /** After the insert, every item's sku so far has a target. */
  lemma InsertPresence(r: Records, batch: seq<Doc>, p: Doc)
    requires Valid(r) && AllPresent(r, batch)
    requires Target(r, Sku(p)).None?
    ensures AllPresent(UpdateOne(r, p), batch + [p])
  {
    var k := Sku(p);
    var b2 := batch + [p];
    var r2 := UpdateOne(r, p);
    SkuOverlay(map["sku" := k], p);
    TargetsAfterInsert(r, r2, k);
    forall i | 0 <= i < |b2| ensures Target(r2, Sku(b2[i])).Some? {
      if i < |batch| {
        assert b2[i] == batch[i];
      }
    }
  }

  /** The step of `BatchOverlay` where the item's sku has no record yet. */
  lemma OverlayInsert(s: Records, batch: seq<Doc>, r: Records, p: Doc)
    requires Valid(s) && BatchInv(s, batch, r)
    requires Target(r, Sku(p)).None?
    ensures BatchInv(s, batch + [p], UpdateOne(r, p))
  {
    var r2 := UpdateOne(r, p);
    assert r2.docs == r.docs[r.next := map["sku" := Sku(p)] + p] && r2.next == r.next + 1;
    InsertOverlaid(s, batch, r, p);
    InsertPresence(r, batch, p);
    InsertedSkuWasAbsent(s, batch, r, p);
  }

  /** A batch relates the records before and after it as `BatchInv` says. */
  lemma {:induction false} BatchOverlay(s: Records, batch: seq<Doc>)
    requires Valid(s)
    ensures BatchInv(s, batch, ApplyBatch(s, batch))
  {
    if batch == [] {
      forall id | id in s.docs ensures Overlaid(s, batch, s, id) {
        var k := Sku(s.docs[id]);
        assert Merge(batch, k) == map[];
        assert s.docs[id] + map[] == s.docs[id];
      }
    } else {
      var init := batch[..|batch| - 1];
      var p := batch[|batch| - 1];
      assert batch == init + [p];
      BatchOverlay(s, init);
      var r := ApplyBatch(s, init);
      match Target(r, Sku(p))
      case Some(t) => OverlayHit(s, init, r, p, t);
      case None => OverlayInsert(s, init, r, p);
    }
  }

  // ---------------------------------------------------------------------------
  // Consequences
  // ---------------------------------------------------------------------------

  /** After a batch every item's sku has a record, and every earlier record is still there with its sku. */
  lemma BatchUpsertsEverySku(s: Records, batch: seq<Doc>)
    requires Valid(s)
    ensures var r := ApplyBatch(s, batch);
      && Valid(r)
      && (forall i :: 0 <= i < |batch| ==> exists id :: id in r.docs && Sku(r.docs[id]) == Sku(batch[i]))
      && (forall id :: id in s.docs ==> id in r.docs && Sku(r.docs[id]) == Sku(s.docs[id]))
  {
    var r := ApplyBatch(s, batch);
    BatchOverlay(s, batch);
    forall i | 0 <= i < |batch| ensures exists id :: id in r.docs && Sku(r.docs[id]) == Sku(batch[i]) {
      TargetSpec(r, Sku(batch[i]));
      var t := Target(r, Sku(batch[i])).value;
      assert t in r.docs && Sku(r.docs[t]) == Sku(batch[i]);
    }
  }

  /**
   * The record each sku's operations reach ends up holding the fields of
   * those items (the later item winning) over its previous fields; every
   * record no item reaches is unchanged.
   */
  lemma BatchSetsFields(s: Records, batch: seq<Doc>, id: nat)
    requires Valid(s)
    requires id in ApplyBatch(s, batch).docs
    ensures var r := ApplyBatch(s, batch);
      var k := Sku(r.docs[id]);
      && (Target(r, k) == Some(id) ==>
            (forall f :: f in Merge(batch, k) ==> f in r.docs[id] && r.docs[id][f] == Merge(batch, k)[f])
            && (forall f :: f in Before(s, id, k) && f !in Merge(batch, k) ==> f in r.docs[id] && r.docs[id][f] == Before(s, id, k)[f]))
      && (Target(r, k) != Some(id) ==> id in s.docs && r.docs[id] == s.docs[id])
  {
    BatchOverlay(s, batch);
  }

  /** In a merge, every field of the last item for the sku is that item's. */
  lemma {:induction false} MergeLastWins(batch: seq<Doc>, i: nat)
    requires i < |batch|
    requires forall j :: i < j < |batch| ==> Sku(batch[j]) != Sku(batch[i])
    ensures forall f :: f in batch[i] ==> f in Merge(batch, Sku(batch[i])) && Merge(batch, Sku(batch[i]))[f] == batch[i][f]
  {
    var k := Sku(batch[i]);
    var init := batch[..|batch| - 1];
    if i < |batch| - 1 {
      assert init[i] == batch[i];
      MergeLastWins(init, i);
      assert Merge(batch, k) == Merge(init, k) + map[];
    }
  }

  /** Running the same batch a second time changes nothing. */
  lemma BatchIdempotent(s: Records, batch: seq<Doc>)
    requires Valid(s)
    ensures ApplyBatch(ApplyBatch(s, batch), batch) == ApplyBatch(s, batch)
  {
    var r := ApplyBatch(s, batch);
    BatchOverlay(s, batch);
    BatchOverlay(r, batch);
    var r2 := ApplyBatch(r, batch);
    assert r2.next == r.next && r2.docs.Keys == r.docs.Keys;
    TargetsAgree(r, r2);
    DocsAgree(s, batch, r, r2);
  }

  /** Every record of `r2` is the same as in `r` when both are overlaid with the same merges. */
  lemma DocsAgree(s: Records, batch: seq<Doc>, r: Records, r2: Records)
    requires r.docs.Keys == r2.docs.Keys
    requires forall id :: id in r.docs ==> Overlaid(s, batch, r, id)
    requires forall id :: id in r2.docs ==> Overlaid(r, batch, r2, id)
    requires forall id :: id in r.docs ==> Sku(r2.docs[id]) == Sku(r.docs[id])
    requires forall k :: Target(r, k) == Target(r2, k)
    ensures r2.docs == r.docs
  {
    forall id | id in r.docs ensures r2.docs[id] == r.docs[id] {
      OverlaidTwice(s, batch, r, r2, id);
    }
  }

  /** A record overlaid once with a batch's merge is unchanged by overlaying it again. */
  lemma OverlaidTwice(s: Records, batch: seq<Doc>, r: Records, r2: Records, id: nat)
    requires id in r.docs && id in r2.docs && Sku(r2.docs[id]) == Sku(r.docs[id])
    requires Target(r2, Sku(r.docs[id])) == Target(r, Sku(r.docs[id]))
    requires Overlaid(s, batch, r, id) && Overlaid(r, batch, r2, id)
    ensures r2.docs[id] == r.docs[id]
  {
    var k := Sku(r.docs[id]);
    if Target(r, k) == Some(id) {
      var m := Merge(batch, k);
      var b := Before(s, id, k);
      assert (b + m) + m == b + m;
    }
  }

  /** A second run of a batch inserts nothing: every item matches a record. */
  lemma SecondRunInsertsNothing(s: Records, batch: seq<Doc>)
    requires Valid(s)
    ensures Summary(ApplyBatch(s, batch), batch).upsertedCount == 0
  {
    BatchOverlay(s, batch);
    NothingInsertedWhenPresent(ApplyBatch(s, batch), batch);
  }

  /** When every item's sku already has a record, a batch inserts nothing. */
  lemma {:induction false} NothingInsertedWhenPresent(r: Records, batch: seq<Doc>)
    requires Valid(r) && AllPresent(r, batch)
    ensures Summary(r, batch).upsertedCount == 0
  {
    if batch != [] {
      var init := batch[..|batch| - 1];
      var p := batch[|batch| - 1];
      assert AllPresent(r, init) by {
        forall i | 0 <= i < |init| ensures Target(r, Sku(init[i])).Some? {
          assert init[i] == batch[i];
        }
      }
      NothingInsertedWhenPresent(r, init);
      BatchOverlay(r, init);
      var before := ApplyBatch(r, init);
      TargetSpec(r, Sku(p));
      var t := Target(r, Sku(p)).value;
      assert t in before.docs && Sku(before.docs[t]) == Sku(p);
      TargetSpec(before, Sku(p));
      assert !Inserts(before, p);
    }
  }
}
