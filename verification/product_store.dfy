/**
 * The product routes of backend/src/index.js over an in-memory store: the
 * listing, create, update, delete, batch upsert and the dashboard counts.
 *
 * The store keeps the product records by id and an ordered log of what it
 * hands to the outside world (image releases on the image host) next to the
 * record writes, so that the order of those effects can be stated. The
 * listing's `createdAt` order, newest first, is modelled as largest id first,
 * which is one order among those the store may give when several records share
 * a creation time. A handler
 * that ends in an exception is an `Err` carrying the HTTP status it answers
 * with.
 */
module ProductStore {
  import opened Wrappers
  import opened Text
  import opened Documents
  import opened Paging
  import opened SearchQuery
  import opened BulkUpsert

  const BadRequest: nat := 400
  const ServerError: nat := 500

  // ---------------------------------------------------------------------------
  // Listing
  // ---------------------------------------------------------------------------

  /** Ids below `n` of the records the query holds for, largest (newest) first. */
  function QueryIds(docs: map<nat, Doc>, n: nat, q: QueryDoc): seq<nat> {
    if n == 0 then []
    else (if n - 1 in docs && QueryHolds(q, docs[n - 1]) then [n - 1] else []) + QueryIds(docs, n - 1, q)
  }

  /** Ids below `n` of the records the listing is meant to select, largest (newest) first. */
  function SelectedIds(docs: map<nat, Doc>, n: nat, search: Option<string>, category: Option<string>,
                       subcategory: Option<string>): (ids: seq<nat>)
    ensures forall k :: 0 <= k < |ids| ==>
      ids[k] < n && ids[k] in docs && Selected(search, category, subcategory, docs[ids[k]])
    ensures forall a, b :: 0 <= a < b < |ids| ==> ids[a] > ids[b]
  {
    if n == 0 then []
    else
      var head := if n - 1 in docs && Selected(search, category, subcategory, docs[n - 1]) then [n - 1] else [];
      var tail := SelectedIds(docs, n - 1, search, category, subcategory);
      assert forall k :: 0 <= k < |tail| ==> tail[k] < n - 1;
      head + tail
  }

  /** Every selected record below `n` is listed: the listing misses none. */
  lemma {:induction false} SelectedIdsComplete(docs: map<nat, Doc>, n: nat, search: Option<string>,
                                               category: Option<string>, subcategory: Option<string>, id: nat)
    requires id < n && id in docs && Selected(search, category, subcategory, docs[id])
    ensures id in SelectedIds(docs, n, search, category, subcategory)
  {
    if id < n - 1 {
      SelectedIdsComplete(docs, n - 1, search, category, subcategory, id);
    }
  }

  /** Filtering by a query that holds exactly for the selected records gives the selected ids. */
  lemma {:induction false} QueryIdsAreSelected(docs: map<nat, Doc>, n: nat, q: QueryDoc, search: Option<string>,
                                               category: Option<string>, subcategory: Option<string>)
    requires forall d :: QueryHolds(q, d) <==> Selected(search, category, subcategory, d)
    ensures QueryIds(docs, n, q) == SelectedIds(docs, n, search, category, subcategory)
  {
    if n > 0 {
      QueryIdsAreSelected(docs, n - 1, q, search, category, subcategory);
    }
  }

  /** The records at the given ids, in the same order. */
  function DocsAt(docs: map<nat, Doc>, ids: seq<nat>): (ds: seq<Doc>)
    requires forall k :: 0 <= k < |ids| ==> ids[k] in docs
    ensures |ds| == |ids|
    ensures forall k :: 0 <= k < |ds| ==> ds[k] == docs[ids[k]]
  {
    if ids == [] then [] else [docs[ids[0]]] + DocsAt(docs, ids[1..])
  }

  /** The response body `{ products, total, pages, currentPage }`; `pages` is `None` where JSON gets `null`. */
  datatype Listing = Listing(products: seq<Doc>, total: nat, pages: Option<nat>, currentPage: int)

  /** `res.json({ products, total, pages, currentPage })`; an unbounded page count is sent as `null`. */
  function ListingJson(l: Listing): (v: Value)
    ensures v.Obj? && Field(v.fields, "products").List? && |Field(v.fields, "products").items| == |l.products|
  {
    Obj(map[
      "products" := List(seq(|l.products|, i requires 0 <= i < |l.products| => Obj(l.products[i]))),
      "total" := Int(l.total),
      "pages" := (match l.pages case Some(p) => Int(p) case None => Null),
      "currentPage" := Int(l.currentPage)
    ])
  }

  /** Whether `skip((page - 1) * limit)` is refused by the store (a negative skip). */
  predicate NegativeSkip(page: int, limit: nat) {
    (page - 1) * limit < 0
  }

  /**
   * The response for the ids of the matching records, newest first: the
   * records from position `(page - 1) * limit` on and at most `limit` of them
   * (all of them when `limit` is 0, which the store reads as "no limit"), the
   * number of matches and `ceil(total / limit)` pages (`null` when `limit` is
   * 0, as JSON writes the division's `Infinity` or `NaN`).
   */
  function ListingFrom(docs: map<nat, Doc>, ids: seq<nat>, page: int, limit: nat): (l: Listing)
    requires forall k :: 0 <= k < |ids| ==> ids[k] in docs
    requires !NegativeSkip(page, limit)
    ensures l.total == |ids| && l.currentPage == page
    ensures limit > 0 ==> |l.products| <= limit && l.pages == Some(CeilDiv(l.total, limit))
    ensures limit == 0 ==> l.pages == None
  {
    var skip: nat := (page - 1) * limit;
    var w := Window(ids, skip, if limit == 0 then |ids| else limit);
    Listing(DocsAt(docs, w), |ids|, if limit == 0 then None else Some(CeilDiv(|ids|, limit)), page)
  }

  /** The listed items are page `page` of the matches, `limit` to a page, in the matches' order. */
  lemma ListingIsPage(docs: map<nat, Doc>, ids: seq<nat>, page: int, limit: nat)
    requires forall k :: 0 <= k < |ids| ==> ids[k] in docs
    requires page >= 1 && limit > 0
    ensures var l := ListingFrom(docs, ids, page, limit);
      && |l.products| == |Page(ids, page, limit)|
      && forall k :: 0 <= k < |l.products| ==> l.products[k] == docs[Page(ids, page, limit)[k]]
  {
    assert ListingFrom(docs, ids, page, limit).products == DocsAt(docs, Page(ids, page, limit));
  }

  /** With no limit the listing holds every match. */
  lemma ListingUnlimited(docs: map<nat, Doc>, ids: seq<nat>, page: int)
    requires forall k :: 0 <= k < |ids| ==> ids[k] in docs
    ensures ListingFrom(docs, ids, page, 0).products == DocsAt(docs, ids)
  {
    assert Window(ids, 0, |ids|) == ids;
  }

  /** The answer `GET /api/products` is meant to give: the listing of the selected records. */
  function ListingOf(docs: map<nat, Doc>, n: nat, search: Option<string>, category: Option<string>,
                     subcategory: Option<string>, page: int, limit: nat): (l: Listing)
    requires !NegativeSkip(page, limit)
    ensures forall k :: 0 <= k < |l.products| ==> Selected(search, category, subcategory, l.products[k])
  {
    var ids := SelectedIds(docs, n, search, category, subcategory);
    var l := ListingFrom(docs, ids, page, limit);
    assert forall k :: 0 <= k < |l.products| ==> exists j :: 0 <= j < |ids| && l.products[k] == docs[ids[j]];
    l
  }

  // ---------------------------------------------------------------------------
  // Create
  // ---------------------------------------------------------------------------

  /** The uploaded image: its public link and the id the image host filed it under. */
  datatype Upload = Upload(path: string, filename: string)

  /** `parseInt(v) || 0` for the value a request body carries. */
  function StockOf(v: Value): int {
    match v
    case Str(s) => ParseIntOrZero(s)
    case Int(i) => i
    case Num(r) => if r >= 0.0 then r.Floor else -((-r).Floor)
    case _ => 0
  }

  /** `v === 'true' || v === true`. */
  predicate FlagOf(v: Value) {
    v == Str("true") || v == Bool(true)
  }

  /**
   * A JSON-carrying field: a non-empty string is parsed, any other truthy value
   * is kept, and a falsy value or a string that does not parse gives `fallback`.
   */
  function ParsedOr(v: Value, parse: string -> Option<Value>, fallback: Value): (r: Value)
    ensures !Truthy(v) ==> r == fallback
    ensures v.Str? && v.s != "" ==> r == parse(v.s).GetOr(fallback)
    ensures Truthy(v) && !v.Str? ==> r == v
  {
    if !Truthy(v) then fallback
    else if v.Str? then parse(v.s).GetOr(fallback)
    else v
  }

  /** The fields `POST /api/products` copies from the body as they are (an absent one is not written). */
  const CopiedKeys: set<string> := {"sku", "name", "category", "subcategory"}

  /** The fields it computes. */
  const FixedKeys: set<string> :=
    {"price", "stock", "attributes", "hasVariations", "variations", "image", "imagePublicId"}

  /** `d` has the field `f` exactly when `data` has, with the same value. */
  predicate Copies(d: Doc, data: Doc, f: string) {
    (f in d <==> f in data) && (f in data ==> d[f] == data[f])
  }

  /** `parseFloat(v) || 0`: the number parsed, or 0 for `NaN`. */
  function PriceOf(v: Value, parseFloat: Value -> Option<real>): real {
    parseFloat(v).GetOr(0.0)
  }

  /** The fields `POST /api/products` computes from the body and the upload. */
  function ComputedFields(data: Doc, file: Option<Upload>, parse: string -> Option<Value>,
                          parseFloat: Value -> Option<real>): (m: Doc)
    ensures m.Keys == FixedKeys
  {
    map[
      "price" := Num(PriceOf(Field(data, "price"), parseFloat)),
      "stock" := Int(StockOf(Field(data, "stock"))),
      "attributes" := ParsedOr(Field(data, "attributes"), parse, Obj(map[])),
      "hasVariations" := Bool(FlagOf(Field(data, "hasVariations"))),
      "variations" := ParsedOr(Field(data, "variations"), parse, List([])),
      "image" := if file.Some? then Str(file.value.path) else Null,
      "imagePublicId" := if file.Some? then Str(file.value.filename) else Null
    ]
  }

  /** The record `POST /api/products` saves for a request body and an optional upload. */
  function NewProduct(data: Doc, file: Option<Upload>, parse: string -> Option<Value>,
                      parseFloat: Value -> Option<real>): (d: Doc)
    ensures Field(d, "stock") == Int(StockOf(Field(data, "stock")))
    ensures Field(d, "hasVariations") == Bool(FlagOf(Field(data, "hasVariations")))
    ensures Field(d, "variations") == ParsedOr(Field(data, "variations"), parse, List([]))
    ensures Field(d, "attributes") == ParsedOr(Field(data, "attributes"), parse, Obj(map[]))
    ensures file.None? ==> Field(d, "image") == Null && Field(d, "imagePublicId") == Null
    ensures file.Some? ==> Field(d, "image") == Str(file.value.path) && Field(d, "imagePublicId") == Str(file.value.filename)
  {
    (map f | f in data && f in CopiedKeys :: data[f]) + ComputedFields(data, file, parse, parseFloat)
  }

  /** The copied fields are the body's: present exactly when the body has them, with the same value. */
  lemma NewProductCopies(data: Doc, file: Option<Upload>, parse: string -> Option<Value>,
                         parseFloat: Value -> Option<real>)
    ensures forall f :: f in CopiedKeys ==> Copies(NewProduct(data, file, parse, parseFloat), data, f)
  {
    forall f | f in CopiedKeys ensures f !in FixedKeys {
    }
  }

  /** A stock sent as the decimal text of a number is stored as that number. */
  lemma StockOfDecimal(n: int)
    ensures StockOf(Str(DecimalString(n))) == n
  {
    ParseIntDecimalString(n);
  }

  /** Text that is not a number (an empty field, a word) is stored as stock 0. */
  lemma StockOfText(s: string)
    requires ParseInt(s).None?
    ensures StockOf(Str(s)) == 0
  {
  }

  // ---------------------------------------------------------------------------
  // Update and delete
  // ---------------------------------------------------------------------------

  /** The fields `updateData` computes over the body. */
  const CoercedKeys: set<string> := {"price", "stock", "hasVariations"}

  /** `parseFloat`, `parseInt` and the flag, laid over the body as `updateData` does. */
  function UpdateData(data: Doc, parseFloat: Value -> Option<real>): (u: Doc)
    ensures u.Keys == data.Keys + CoercedKeys
    ensures forall f :: f in data && f !in CoercedKeys ==> u[f] == data[f]
    ensures u["price"] == Num(parseFloat(Field(data, "price")).GetOr(0.0))
    ensures u["stock"] == Int(StockOf(Field(data, "stock")))
    ensures u["hasVariations"] == Bool(Field(data, "hasVariations") == Str("true") || Field(data, "hasVariations") == Bool(true))
  {
    data + map[
      "price" := Num(PriceOf(Field(data, "price"), parseFloat)),
      "stock" := Int(StockOf(Field(data, "stock"))),
      "hasVariations" := Bool(FlagOf(Field(data, "hasVariations")))
    ]
  }

  /**
   * Field `f` of `u` is field `f` of the body read as JSON: the parse of
   * non-empty text, any other value as it is, and absent when the body has no
   * such field.
   */
  predicate ReadsJson(u: Doc, data: Doc, f: string, parse: string -> Option<Value>) {
    && (f in u <==> f in data)
    && (f in data && data[f].Str? && data[f].s != "" ==> parse(data[f].s) == Some(u[f]))
    && (f in data && !(data[f].Str? && data[f].s != "") ==> u[f] == data[f])
  }

  /**
   * A JSON-carrying field of an update body: parsed when it is a non-empty
   * string, kept otherwise; `None` when the text does not parse (the handler
   * has no fallback there and answers 500).
   */
  function ParsedField(data: Doc, f: string, parse: string -> Option<Value>): (r: Option<Doc>)
    ensures r.None? <==> f in data && data[f].Str? && data[f].s != "" && parse(data[f].s).None?
    ensures r.Some? ==> r.value.Keys == data.Keys
    ensures r.Some? ==> ReadsJson(r.value, data, f, parse)
    ensures r.Some? ==> forall g :: g in data && g != f ==> r.value[g] == data[g]
  {
    if f in data && Truthy(data[f]) && data[f].Str? then
      match parse(data[f].s)
      case Some(v) => Some(data[f := v])
      case None => None
    else Some(data)
  }

  /** The fields of the body an update does not write as they came. */
  function RewrittenKeys(file: Option<Upload>): set<string> {
    CoercedKeys + {"variations", "attributes"} + (if file.Some? then {"image", "imagePublicId"} else {})
  }

  /**
   * The fields an update overlays on the stored record: the body with its JSON
   * fields parsed and its numbers coerced, plus the new image when a file came
   * with it; `None` when `variations` or `attributes` does not parse.
   */
  function Changes(data: Doc, file: Option<Upload>, parse: string -> Option<Value>,
                   parseFloat: Value -> Option<real>): (u: Option<Doc>)
    ensures u.None? <==> (ParsedField(data, "variations", parse).None?
                          || ParsedField(ParsedField(data, "variations", parse).value, "attributes", parse).None?)
    ensures u.Some? ==> u.value.Keys >= data.Keys + CoercedKeys
    ensures u.Some? && file.Some? ==>
      Field(u.value, "image") == Str(file.value.path) && Field(u.value, "imagePublicId") == Str(file.value.filename)
  {
    var withVariations := ParsedField(data, "variations", parse);
    if withVariations.None? then None
    else
      var parsed := ParsedField(withVariations.value, "attributes", parse);
      if parsed.None? then None
      else
        var update := UpdateData(parsed.value, parseFloat);
        if file.Some? then Some(update["image" := Str(file.value.path)]["imagePublicId" := Str(file.value.filename)])
        else Some(update)
  }

  /**
   * Which fields an update writes: those of the body, the coerced ones, and the
   * image fields when a file came; every field of the body it does not
   * rewrite is written as it came.
   */
  lemma ChangesKeys(data: Doc, file: Option<Upload>, parse: string -> Option<Value>,
                    parseFloat: Value -> Option<real>)
    requires Changes(data, file, parse, parseFloat).Some?
    ensures var u := Changes(data, file, parse, parseFloat).value;
      && u.Keys == data.Keys + CoercedKeys + (if file.Some? then {"image", "imagePublicId"} else {})
      && (forall f :: f in data && f !in RewrittenKeys(file) ==> u[f] == data[f])
      && (file.Some? ==> u["image"] == Str(file.value.path) && u["imagePublicId"] == Str(file.value.filename))
  {
  }

  /** An update writes `variations` and `attributes` read as JSON. */
  lemma ChangesParseJson(data: Doc, file: Option<Upload>, parse: string -> Option<Value>,
                         parseFloat: Value -> Option<real>)
    requires Changes(data, file, parse, parseFloat).Some?
    ensures var u := Changes(data, file, parse, parseFloat).value;
      ReadsJson(u, data, "variations", parse) && ReadsJson(u, data, "attributes", parse)
  {
    var v := ParsedField(data, "variations", parse).value;
    var a := ParsedField(v, "attributes", parse).value;
    var u := Changes(data, file, parse, parseFloat).value;
    assert ("variations" in data <==> "variations" in a) && ("attributes" in data <==> "attributes" in a);
    assert "variations" in data ==> u["variations"] == a["variations"] == v["variations"];
    assert "attributes" in data ==> u["attributes"] == a["attributes"] && v["attributes"] == data["attributes"];
  }

  /** An update writes the price, stock and flag coerced from the body as `updateData` does. */
  lemma ChangesCoerce(data: Doc, file: Option<Upload>, parse: string -> Option<Value>,
                      parseFloat: Value -> Option<real>)
    requires Changes(data, file, parse, parseFloat).Some?
    ensures var u := Changes(data, file, parse, parseFloat).value;
      && u["price"] == Num(parseFloat(Field(data, "price")).GetOr(0.0))
      && u["stock"] == Int(StockOf(Field(data, "stock")))
      && u["hasVariations"] == Bool(Field(data, "hasVariations") == Str("true") || Field(data, "hasVariations") == Bool(true))
  {
    var parsed := ParsedField(ParsedField(data, "variations", parse).value, "attributes", parse).value;
    assert Field(parsed, "price") == Field(data, "price");
    assert Field(parsed, "stock") == Field(data, "stock");
    assert Field(parsed, "hasVariations") == Field(data, "hasVariations");
  }

  /** What the image host is asked to do for a stored public id: nothing when it is absent or empty. */
  function ReleaseImage(publicId: Value): (ev: seq<Event>)
    ensures |ev| <= 1
    ensures ev == [] <==> !Truthy(publicId)
    ensures ev != [] ==> ev[0] == ImageReleased(publicId)
  {
    if !Truthy(publicId) then [] else [ImageReleased(publicId)]
  }

  /** The release the delete and update handlers ask for before they touch record `id`. */
  function ReleaseFor(docs: map<nat, Doc>, id: nat): seq<Event> {
    if id in docs then ReleaseImage(Field(docs[id], "imagePublicId")) else []
  }

  /** An effect the handlers have outside the record map, in the order they happen. */
  datatype Event =
    | ImageReleased(publicId: Value)
    | RecordUpdated(id: nat)
    | RecordDeleted(id: nat)

  // ---------------------------------------------------------------------------
  // Dashboard counts
  // ---------------------------------------------------------------------------

  /** `countDocuments({ category: name })`. */
  function CountIn(docs: map<nat, Doc>, name: string): nat {
    |set id | id in docs && Field(docs[id], "category") == Str(name)|
  }

  // ---------------------------------------------------------------------------
  // The store
  // ---------------------------------------------------------------------------

  class Store {
    var docs: map<nat, Doc>
    var next: nat
    var log: seq<Event>

    ghost predicate Valid()
      reads this
    {
      forall id :: id in docs ==> id < next
    }

    constructor()
      ensures Valid() && docs == map[] && next == 0 && log == []
    {
      docs := map[];
      next := 0;
      log := [];
    }

    /**
     * `GET /api/products`: builds the query, refuses a negative skip with 500,
     * and otherwise answers with the listing the parameters are meant to give.
     */
    method List(search: Option<string>, category: Option<string>, subcategory: Option<string>,
                page: int, limit: nat) returns (res: Result<Listing, nat>)
      ensures res.Err? <==> NegativeSkip(page, limit)
      ensures res.Err? ==> res.error == ServerError
      ensures res.Ok? ==> res.value == ListingOf(docs, next, search, category, subcategory, page, limit)
    {
      var q := BuildQuery(search, category, subcategory);
      if NegativeSkip(page, limit) {
        return Err(ServerError);
      }
      var ids := QueryIds(docs, next, q);
      QueryIdsAreSelected(docs, next, q, search, category, subcategory);
      res := Ok(ListingFrom(docs, ids, page, limit));
    }

    /** `POST /api/products`: saves the parsed record under a fresh id. */
    method Create(data: Doc, file: Option<Upload>, parse: string -> Option<Value>,
                  parseFloat: Value -> Option<real>) returns (id: nat, created: Doc)
      requires Valid()
      modifies this
      ensures Valid()
      ensures id == old(next) && id !in old(docs) && next == old(next) + 1
      ensures created == NewProduct(data, file, parse, parseFloat)
      ensures docs == old(docs)[id := created] && log == old(log)
    {
      created := NewProduct(data, file, parse, parseFloat);
      id := next;
      docs := docs[id := created];
      next := next + 1;
    }

    /**
     * `PUT /api/products/:id`: parses the JSON fields (500 when one does not
     * parse, before anything else happens); with an upload, releases the old
     * image and points the record at the new one; then overlays the fields.
     * Answers with the updated record, or `None` when no record has that id.
     */
    method Update(id: nat, data: Doc, file: Option<Upload>, parse: string -> Option<Value>,
                  parseFloat: Value -> Option<real>) returns (res: Result<Option<Doc>, nat>)
      requires Valid()
      modifies this
      ensures Valid() && next == old(next)
      ensures docs.Keys == old(docs).Keys
      ensures res.Err? ==> res.error == ServerError && docs == old(docs) && log == old(log)
      ensures res.Err? <==> Changes(data, file, parse, parseFloat).None?
      ensures res.Ok? ==>
        log == old(log) + (if file.Some? then ReleaseFor(old(docs), id) else []) + [RecordUpdated(id)]
      ensures res.Ok? && id !in old(docs) ==> res.value.None? && docs == old(docs)
      ensures res.Ok? && id in old(docs) ==>
        docs == old(docs)[id := old(docs)[id] + Changes(data, file, parse, parseFloat).value] && res.value == Some(docs[id])
    {
      var changes := Changes(data, file, parse, parseFloat);
      if changes.None? {
        return Err(ServerError);
      }
      if file.Some? {
        log := log + ReleaseFor(docs, id);
      }
      log := log + [RecordUpdated(id)];
      if id in docs {
        docs := docs[id := docs[id] + changes.value];
        res := Ok(Some(docs[id]));
      } else {
        res := Ok(None);
      }
    }

    /**
     * `DELETE /api/products/:id`: releases the record's image, if it has one,
     * before deleting the record; an unknown id is answered like a known one.
     */
    method Delete(id: nat)
      requires Valid()
      modifies this
      ensures Valid() && next == old(next)
      ensures docs == old(docs) - {id}
      ensures log == old(log) + ReleaseFor(old(docs), id) + [RecordDeleted(id)]
    {
      log := log + ReleaseFor(docs, id);
      docs := docs - {id};
      log := log + [RecordDeleted(id)];
    }

    /**
     * `POST /api/products/batch`: 400 unless `products` is an array, 500 when
     * an item is not an object; otherwise one upsert per item, in order.
     */
    method Batch(body: Doc) returns (res: Result<BulkResult, nat>)
      requires Valid()
      modifies this
      ensures Valid() && log == old(log)
      ensures !Field(body, "products").List? ==> res == Err(BadRequest) && docs == old(docs) && next == old(next)
      ensures Field(body, "products").List? && !AllObjects(Field(body, "products").items) ==>
        res == Err(ServerError) && docs == old(docs) && next == old(next)
      ensures Field(body, "products").List? && AllObjects(Field(body, "products").items) ==>
        var items := Fields(Field(body, "products").items);
        && Records(docs, next) == ApplyBatch(Records(old(docs), old(next)), items)
        && res == Ok(Summary(Records(old(docs), old(next)), items))
    {
      var products := Field(body, "products");
      if !products.List? {
        return Err(BadRequest);
      }
      if !AllObjects(products.items) {
        return Err(ServerError);
      }
      var items := Fields(products.items);
      var before := Records(docs, next);
      var after := ApplyBatch(before, items);
      BatchUpsertsEverySku(before, items);
      docs := after.docs;
      next := after.next;
      res := Ok(Summary(before, items));
    }

    /** `GET /api/dashboard/stats`: the record count and, per category name, its record count. */
    method Stats(names: seq<string>) returns (total: nat, counts: map<string, nat>)
      ensures total == |docs|
      ensures forall n :: n in counts <==> n in names
      ensures forall n :: n in counts ==> counts[n] == CountIn(docs, n)
    {
      total := |docs|;
      counts := map[];
      var i := 0;
      while i < |names|
        invariant 0 <= i <= |names|
        invariant forall n :: n in counts <==> n in names[..i]
        invariant forall n :: n in counts ==> counts[n] == CountIn(docs, n)
      {
        assert names[..i + 1] == names[..i] + [names[i]];
        counts := counts[names[i] := CountIn(docs, names[i])];
        i := i + 1;
      }
      assert names[..i] == names;
    }
  }

  /** Every item of the batch is an object. */
  predicate AllObjects(items: seq<Value>) {
    forall k :: 0 <= k < |items| ==> items[k].Obj?
  }

  /** The objects of a batch as documents. */
  function Fields(items: seq<Value>): (ds: seq<Doc>)
    requires AllObjects(items)
    ensures |ds| == |items|
    ensures forall k :: 0 <= k < |ds| ==> ds[k] == items[k].fields
  {
    if items == [] then [] else [items[0].fields] + Fields(items[1..])
  }
}
