/**
 * The category editor: the list of subcategory tags being edited, the guards
 * that refuse to remove a subcategory or delete a category that products still
 * use, and the pending confirmation that decides what "yes" does.
 *
 * The products the guards count are kept as the JSON value the page loaded;
 * counting over anything but an array throws, and a handler that throws
 * changes nothing.
 */
module CategoryEditor {
  import opened Wrappers
  import opened Text
  import opened Documents
  import ProductStore
  import opened TagList

  // ---------------------------------------------------------------------------
  // Reference counts
  // ---------------------------------------------------------------------------

  /** Product `p` is in category `cat` and, when `sub` is given, in subcategory `sub`. */
  predicate Refers(p: Value, cat: string, sub: Option<string>) {
    && p.Obj?
    && Field(p.fields, "category") == Str(cat)
    && (sub.Some? ==> Field(p.fields, "subcategory") == Str(sub.value))
  }

  function CountRefs(items: seq<Value>, cat: string, sub: Option<string>): (n: nat)
    ensures n <= |items|
    ensures n > 0 <==> exists i :: 0 <= i < |items| && Refers(items[i], cat, sub)
  {
    if items == [] then 0
    else
      var rest := CountRefs(items[1..], cat, sub);
      assert forall i :: 0 < i < |items| ==> items[i] == items[1..][i - 1];
      assert forall i :: 0 <= i < |items| - 1 ==> items[1..][i] == items[i + 1];
      (if Refers(items[0], cat, sub) then 1 else 0) + rest
  }

  /** `allProducts.filter(...).length`: `None` when `allProducts` is not an array (the call throws). */
  function References(products: Value, cat: string, sub: Option<string>): (c: Option<nat>)
    ensures c.None? <==> !products.List?
    ensures c.Some? ==> (c.value > 0 <==> exists i :: 0 <= i < |products.items| && Refers(products.items[i], cat, sub))
  {
    if products.List? then Some(CountRefs(products.items, cat, sub)) else None
  }

  /** What `loadCategoriesList` keeps of the products response, as written: the whole body. */
  function LoadedAsWritten(response: Value): Value {
    response
  }

  /** The products of a listing response, read as the catalogue page reads them (`.products || []`). */
  function LoadedProducts(response: Value): (v: Value)
    ensures v.List?
    ensures response.Obj? && Field(response.fields, "products").List? ==> v == response.fields["products"]
  {
    if response.Obj? && Truthy(Field(response.fields, "products")) && Field(response.fields, "products").List? then
      response.fields["products"]
    else List([])
  }

  /**
   * As written, the products response is the listing object, not an array, so
   * every reference count throws: no subcategory can be removed and no
   * category deleted through the confirmation.
   */
  lemma GuardsThrowAsWritten(l: ProductStore.Listing, cat: string, sub: Option<string>)
    ensures References(LoadedAsWritten(ProductStore.ListingJson(l)), cat, sub).None?
  {
  }

  /** Read through `.products`, the counts are over the listing's records. */
  lemma GuardsCountListing(l: ProductStore.Listing, cat: string, sub: Option<string>)
    ensures var c := References(LoadedProducts(ProductStore.ListingJson(l)), cat, sub);
      && c.Some?
      && (c.value > 0 <==> exists i :: 0 <= i < |l.products| && Refers(Obj(l.products[i]), cat, sub))
  {
    var v := ProductStore.ListingJson(l);
    var items := v.fields["products"].items;
    assert LoadedProducts(v) == v.fields["products"];
    assert forall i :: 0 <= i < |l.products| ==> items[i] == Obj(l.products[i]);
  }

  /**
   * Counting over a listing of every product (a `limit` of 0, which the store
   * reads as no limit), a guard sees every record of the store: the count is
   * positive exactly when some stored product refers to the category.
   */
  lemma GuardsCountEveryRecord(docs: map<nat, Doc>, n: nat, cat: string, sub: Option<string>)
    requires forall id :: id in docs ==> id < n
    ensures var c := References(LoadedProducts(ProductStore.ListingJson(
                                  ProductStore.ListingOf(docs, n, None, None, None, 1, 0))), cat, sub);
      && c.Some?
      && (c.value > 0 <==> exists id :: id in docs && Refers(Obj(docs[id]), cat, sub))
  {
    var ids := ProductStore.SelectedIds(docs, n, None, None, None);
    var l := ProductStore.ListingOf(docs, n, None, None, None, 1, 0);
    assert l == ProductStore.ListingFrom(docs, ids, 1, 0);
    ProductStore.ListingUnlimited(docs, ids, 1);
    forall id | id in docs ensures id in ids {
      ProductStore.SelectedIdsComplete(docs, n, None, None, None, id);
    }
    GuardsCountListing(l, cat, sub);
    SomeRecordRefers(docs, ids, l.products, cat, sub);
  }

  /** Records listed by every id of the store include one that refers to the category exactly when the store does. */
  lemma SomeRecordRefers(docs: map<nat, Doc>, ids: seq<nat>, ds: seq<Doc>, cat: string, sub: Option<string>)
    requires |ds| == |ids| && forall k :: 0 <= k < |ids| ==> ids[k] in docs && ds[k] == docs[ids[k]]
    requires forall id :: id in docs ==> id in ids
    ensures (exists i :: 0 <= i < |ds| && Refers(Obj(ds[i]), cat, sub))
        <==> exists id :: id in docs && Refers(Obj(docs[id]), cat, sub)
  {
    if exists id :: id in docs && Refers(Obj(docs[id]), cat, sub) {
      var id :| id in docs && Refers(Obj(docs[id]), cat, sub);
      var k :| 0 <= k < |ids| && ids[k] == id;
      assert Refers(Obj(ds[k]), cat, sub);
    }
    if exists i :: 0 <= i < |ds| && Refers(Obj(ds[i]), cat, sub) {
      var i :| 0 <= i < |ds| && Refers(Obj(ds[i]), cat, sub);
      assert ids[i] in docs && Refers(Obj(docs[ids[i]]), cat, sub);
    }
  }

  // ---------------------------------------------------------------------------
  // Category ids
  // ---------------------------------------------------------------------------

  /** A category as `GET /api/categories` sends it: the store's `_id`, the name and the tags; there is no `id` field. */
  function CategoryJson(id: string, name: string, subs: seq<string>): (v: Value)
    ensures v.Obj? && "id" !in v.fields && Field(v.fields, "_id") == Str(id)
  {
    Obj(map[
      "_id" := Str(id),
      "name" := Str(name),
      "subcategories" := List(seq(|subs|, i requires 0 <= i < |subs| => Str(subs[i])))
    ])
  }

  /** `cat.id`, as the category page reads it: `undefined` (`None`) unless the object has a text `id`. */
  function IdAsWritten(cat: Value): (r: Option<string>)
    ensures r.Some? <==> cat.Obj? && Field(cat.fields, "id").Str?
    ensures r.Some? ==> r.value == cat.fields["id"].s
  {
    if cat.Obj? && Field(cat.fields, "id").Str? then Some(cat.fields["id"].s) else None
  }

  /** `cat._id`, as the attribute page reads its records. */
  function IdOf(cat: Value): (r: Option<string>)
    ensures r.Some? <==> cat.Obj? && Field(cat.fields, "_id").Str?
    ensures r.Some? ==> r.value == cat.fields["_id"].s
  {
    if cat.Obj? && Field(cat.fields, "_id").Str? then Some(cat.fields["_id"].s) else None
  }

  /**
   * Deleting a listed category as written: its delete button passes `cat.id`,
   * which the listed object lacks, so confirming deletes nothing, even for a
   * category no product uses.
   */
  method ConfirmDeleteAsWritten(id: string, name: string, subs: seq<string>, response: Value)
    returns (act: Confirmed)
    ensures act == NoAction
  {
    var e := new Editor();
    e.LoadProducts(response);
    var _ := e.AskDeleteCat(IdAsWritten(CategoryJson(id, name, subs)), name);
    act := e.CloseConfirm(true);
  }

  /** Deleting a listed category by its `_id`: confirmed, it is deleted exactly when no product uses it. */
  method ConfirmDelete(id: string, name: string, subs: seq<string>, response: Value)
    returns (act: Confirmed)
    ensures id != "" && References(LoadedProducts(response), name, None) == Some(0) ==> act == DeleteCategory(id)
    ensures id == "" || References(LoadedProducts(response), name, None) != Some(0) ==> act == NoAction
  {
    var e := new Editor();
    e.LoadProducts(response);
    var _ := e.AskDeleteCat(IdOf(CategoryJson(id, name, subs)), name);
    act := e.CloseConfirm(true);
  }

  /**
   * Editing a listed category as written: `editingCatId` is `cat.id`, which
   * the listed object lacks, so saving creates a new category instead of
   * replacing the edited one.
   */
  method SaveEditAsWritten(id: string, name: string, subs: seq<string>, nameInput: string)
    returns (res: Result<CategoryRequest, string>)
    ensures res.Err? <==> Trim(nameInput) == "" || subs == []
    ensures res.Ok? ==> res.value.target == Create && res.value.subcategories == subs
  {
    var e := new Editor();
    e.EditCategory(IdAsWritten(CategoryJson(id, name, subs)), subs);
    res := e.SaveFullCategory(nameInput);
  }

  /** Editing a listed category by its `_id`: saving replaces that category. */
  method SaveEdit(id: string, name: string, subs: seq<string>, nameInput: string)
    returns (res: Result<CategoryRequest, string>)
    ensures res.Err? <==> Trim(nameInput) == "" || subs == []
    ensures res.Ok? ==> res.value.target == (if id != "" then Replace(id) else Create) && res.value.subcategories == subs
  {
    var e := new Editor();
    e.EditCategory(IdOf(CategoryJson(id, name, subs)), subs);
    res := e.SaveFullCategory(nameInput);
  }

  // ---------------------------------------------------------------------------
  // The editor's state
  // ---------------------------------------------------------------------------

  /** What a guarded request ended in. */
  datatype Ask = Armed | Locked(count: nat) | Threw

  /** What "yes" on the confirmation does besides closing it. */
  datatype Confirmed = DeleteCategory(id: string) | RemovedTag(sub: string) | NoAction

  datatype Target = Create | Replace(id: string)

  datatype CategoryRequest = CategoryRequest(target: Target, name: string, subcategories: seq<string>)

  class Editor {
    var currentSubcategories: seq<string>
    var editingCatId: Option<string>
    var deleteCatId: Option<string>
    var subToRemove: Option<string>
    var allProducts: Value

    constructor()
      ensures currentSubcategories == [] && editingCatId == None && deleteCatId == None
      ensures subToRemove == None && allProducts == List([])
    {
      currentSubcategories := [];
      editingCatId := None;
      deleteCatId := None;
      subToRemove := None;
      allProducts := List([]);
    }

    /** `loadCategoriesList`, reading the products through `.products`. */
    method LoadProducts(response: Value)
      modifies this`allProducts
      ensures allProducts == LoadedProducts(response)
    {
      allProducts := LoadedProducts(response);
    }

    /** `askRemoveSub`: arms the removal only when no product of the category uses the subcategory. */
    method AskRemoveSub(catName: string, sub: string) returns (a: Ask)
      modifies this`subToRemove
      ensures var c := References(allProducts, catName, Some(sub));
        && (c.None? ==> a == Threw)
        && (c.Some? && c.value > 0 ==> a == Locked(c.value))
        && (c == Some(0) ==> a == Armed)
      ensures a == Armed ==> subToRemove == Some(sub)
      ensures a != Armed ==> subToRemove == old(subToRemove)
    {
      var c := References(allProducts, catName, Some(sub));
      if c.None? {
        return Threw;
      }
      if c.value > 0 {
        return Locked(c.value);
      }
      subToRemove := Some(sub);
      a := Armed;
    }

    /** `askDeleteCat`: arms the deletion only when no product is in the category. */
    method AskDeleteCat(id: Option<string>, name: string) returns (a: Ask)
      modifies this`deleteCatId
      ensures var c := References(allProducts, name, None);
        && (c.None? ==> a == Threw)
        && (c.Some? && c.value > 0 ==> a == Locked(c.value))
        && (c == Some(0) ==> a == Armed)
      ensures a == Armed ==> deleteCatId == id
      ensures a != Armed ==> deleteCatId == old(deleteCatId)
    {
      var c := References(allProducts, name, None);
      if c.None? {
        return Threw;
      }
      if c.value > 0 {
        return Locked(c.value);
      }
      deleteCatId := id;
      a := Armed;
    }

    /**
     * `closeConfirm`: on "yes", a pending category deletion wins over a pending
     * tag removal; either way both markers are cleared.
     */
    method CloseConfirm(confirmed: bool) returns (act: Confirmed)
      modifies this`currentSubcategories, this`deleteCatId, this`subToRemove
      ensures deleteCatId == None && subToRemove == None
      ensures confirmed && IsSet(old(deleteCatId)) ==>
        act == DeleteCategory(old(deleteCatId).value) && currentSubcategories == old(currentSubcategories)
      ensures confirmed && !IsSet(old(deleteCatId)) && IsSet(old(subToRemove)) ==>
        act == RemovedTag(old(subToRemove).value)
        && currentSubcategories == RemoveTag(old(currentSubcategories), old(subToRemove).value)
      ensures !(confirmed && (IsSet(old(deleteCatId)) || IsSet(old(subToRemove)))) ==>
        act == NoAction && currentSubcategories == old(currentSubcategories)
    {
      act := NoAction;
      if confirmed {
        if IsSet(deleteCatId) {
          act := DeleteCategory(deleteCatId.value);
        } else if IsSet(subToRemove) {
          act := RemovedTag(subToRemove.value);
          currentSubcategories := RemoveTag(currentSubcategories, subToRemove.value);
        }
      }
      deleteCatId := None;
      subToRemove := None;
    }

    method AddSubToList(input: string)
      modifies this`currentSubcategories
      ensures currentSubcategories == AddTag(old(currentSubcategories), input)
    {
      var v := Trim(input);
      if v != "" && v !in currentSubcategories {
        currentSubcategories := currentSubcategories + [v];
      }
    }

    /**
     * `saveFullCategory`: refuses a blank name or an empty tag list; otherwise
     * the request that creates the category or replaces the one being edited.
     */
    method SaveFullCategory(nameInput: string) returns (res: Result<CategoryRequest, string>)
      ensures res.Err? <==> Trim(nameInput) == "" || currentSubcategories == []
      ensures res.Ok? ==>
        && res.value.name == Trim(nameInput) && res.value.name != ""
        && res.value.subcategories == currentSubcategories && res.value.subcategories != []
        && res.value.target == (if IsSet(editingCatId) then Replace(editingCatId.value) else Create)
    {
      var name := Trim(nameInput);
      if name == "" || |currentSubcategories| == 0 {
        return Err("Preencha o nome da categoria e adicione subcategorias.");
      }
      var target := if IsSet(editingCatId) then Replace(editingCatId.value) else Create;
      res := Ok(CategoryRequest(target, name, currentSubcategories));
    }

    /** `editCategory`: edits the given category, starting from a copy of its tags. */
    method EditCategory(id: Option<string>, subcategories: seq<string>)
      modifies this`editingCatId, this`currentSubcategories
      ensures editingCatId == id && currentSubcategories == subcategories
    {
      editingCatId := id;
      currentSubcategories := subcategories;
    }

    /** `cancelCatEdit`, also run after a successful save. */
    method CancelCatEdit()
      modifies this`editingCatId, this`currentSubcategories
      ensures editingCatId == None && currentSubcategories == []
    {
      editingCatId := None;
      currentSubcategories := [];
    }
  }
}
