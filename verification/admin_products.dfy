/**
 * The administration page for products: the numbered pager with its `...`
 * elisions, the "showing a-b of n" range, the form the save button submits,
 * and how the page reads the listing response.
 */
module AdminProducts {
  import opened Wrappers
  import opened Text
  import opened Documents
  import opened Paging
  import ProductStore

  const ItemsPerPage: nat := 25
  /** Pages within this distance of the current one are always listed. */
  const MaxVisible: nat := 2

  // ---------------------------------------------------------------------------
  // The pager
  // ---------------------------------------------------------------------------

  datatype PageEntry = Number(n: int) | Ellipsis

  /** Page `i` gets its own button: the first, the last, and those near the current page. */
  predicate Listed(i: int, current: int, total: int) {
    i == 1 || i == total || (current - MaxVisible <= i && i <= current + MaxVisible)
  }

  predicate Increasing(pages: seq<PageEntry>) {
    forall a, b :: 0 <= a < b < |pages| && pages[a].Number? && pages[b].Number? ==> pages[a].n < pages[b].n
  }

  /** Two numbers side by side are consecutive pages. */
  predicate Adjacent(pages: seq<PageEntry>) {
    forall j :: 0 <= j < |pages| - 1 && pages[j].Number? && pages[j + 1].Number? ==> pages[j + 1].n == pages[j].n + 1
  }

  /** An ellipsis sits between two numbers and stands for at least one page. */
  predicate GapsSkip(pages: seq<PageEntry>) {
    forall j :: 0 < j < |pages| - 1 && pages[j].Ellipsis? ==>
      pages[j - 1].Number? && pages[j + 1].Number? && pages[j + 1].n > pages[j - 1].n + 1
  }

  predicate NoDoubleEllipsis(pages: seq<PageEntry>) {
    forall j :: 0 <= j < |pages| - 1 ==> !(pages[j].Ellipsis? && pages[j + 1].Ellipsis?)
  }

  /** Every number pushed so far is below `i`. */
  predicate Below(pages: seq<PageEntry>, i: int) {
    forall a :: 0 <= a < |pages| && pages[a].Number? ==> pages[a].n < i
  }

  /** The last entry is page `i - 1`, or an ellipsis after a page before `i - 2`. */
  predicate TailAt(pages: seq<PageEntry>, i: int) {
    pages != [] ==>
      pages[|pages| - 1] == Number(i - 1)
      || (pages[|pages| - 1].Ellipsis? && |pages| >= 2
          && pages[|pages| - 2].Number? && pages[|pages| - 2].n < i - 1)
  }

  /** What the pass over pages 1..i-1 has pushed so far. */
  ghost predicate Progress(pages: seq<PageEntry>, i: int, current: int, total: int) {
    && (forall n :: Number(n) in pages <==> 1 <= n < i && Listed(n, current, total))
    && Increasing(pages) && Adjacent(pages) && GapsSkip(pages) && NoDoubleEllipsis(pages)
    && Below(pages, i) && TailAt(pages, i)
    && (i > 1 <==> pages != [])
    && (pages != [] ==> pages[0] == Number(1))
  }

  lemma Membership(pages: seq<PageEntry>, x: PageEntry)
    ensures forall n :: Number(n) in pages + [x] <==> Number(n) in pages || x == Number(n)
  {
  }

  lemma IncreasingAppend(pages: seq<PageEntry>, x: PageEntry, i: int)
    requires Increasing(pages) && Below(pages, i) && (x.Number? ==> x.n == i)
    ensures Increasing(pages + [x]) && Below(pages + [x], i + 1)
  {
    var p := pages + [x];
    assert forall a :: 0 <= a < |pages| ==> p[a] == pages[a];
  }

  lemma AdjacentAppend(pages: seq<PageEntry>, x: PageEntry, i: int)
    requires Adjacent(pages) && TailAt(pages, i) && (x.Number? ==> x.n == i)
    ensures Adjacent(pages + [x])
  {
    var p := pages + [x];
    assert forall a :: 0 <= a < |pages| ==> p[a] == pages[a];
  }

  lemma GapsAppend(pages: seq<PageEntry>, x: PageEntry, i: int)
    requires GapsSkip(pages) && TailAt(pages, i) && (x.Number? ==> x.n == i)
    requires x.Ellipsis? ==> pages != [] && pages[|pages| - 1] == Number(i - 1)
    ensures GapsSkip(pages + [x])
  {
    var p := pages + [x];
    assert forall a :: 0 <= a < |pages| ==> p[a] == pages[a];
  }

  lemma NoDoubleAppend(pages: seq<PageEntry>, x: PageEntry)
    requires NoDoubleEllipsis(pages) && (x.Ellipsis? ==> pages == [] || pages[|pages| - 1] != Ellipsis)
    ensures NoDoubleEllipsis(pages + [x])
  {
    var p := pages + [x];
    assert forall a :: 0 <= a < |pages| ==> p[a] == pages[a];
  }

  lemma ShapeAfter(pages: seq<PageEntry>, x: PageEntry, i: int)
    requires Increasing(pages) && Adjacent(pages) && GapsSkip(pages) && NoDoubleEllipsis(pages)
    requires Below(pages, i) && TailAt(pages, i) && (x.Number? ==> x.n == i)
    requires x.Ellipsis? ==> pages != [] && pages[|pages| - 1] == Number(i - 1)
    ensures var p := pages + [x];
      Increasing(p) && Adjacent(p) && GapsSkip(p) && NoDoubleEllipsis(p) && Below(p, i + 1) && TailAt(p, i + 1)
  {
    IncreasingAppend(pages, x, i);
    AdjacentAppend(pages, x, i);
    GapsAppend(pages, x, i);
    NoDoubleAppend(pages, x);
  }

  lemma PushNumber(pages: seq<PageEntry>, i: int, current: int, total: int)
    requires i >= 1 && Progress(pages, i, current, total) && Listed(i, current, total)
    ensures Progress(pages + [Number(i)], i + 1, current, total)
  {
    Membership(pages, Number(i));
    ShapeAfter(pages, Number(i), i);
  }

  lemma PushEllipsis(pages: seq<PageEntry>, i: int, current: int, total: int)
    requires i > 1 && Progress(pages, i, current, total) && !Listed(i, current, total)
    requires pages[|pages| - 1] != Ellipsis
    ensures Progress(pages + [Ellipsis], i + 1, current, total)
  {
    Membership(pages, Ellipsis);
    ShapeAfter(pages, Ellipsis, i);
  }

  lemma SkipAgain(pages: seq<PageEntry>, i: int, current: int, total: int)
    requires i > 1 && Progress(pages, i, current, total) && !Listed(i, current, total)
    requires pages[|pages| - 1] == Ellipsis
    ensures Progress(pages, i + 1, current, total)
  {
  }

  /** `getPages`: one pass over 1..totalPages, pushing a number or, once per run of skipped pages, `'...'`. */
  method GetPages(current: int, total: int) returns (pages: seq<PageEntry>)
    ensures total <= 0 ==> pages == []
    ensures forall n :: Number(n) in pages <==> 1 <= n <= total && Listed(n, current, total)
    ensures Increasing(pages) && Adjacent(pages) && GapsSkip(pages) && NoDoubleEllipsis(pages)
    ensures total >= 1 ==> |pages| >= 1 && pages[0] == Number(1) && pages[|pages| - 1] == Number(total)
  {
    pages := [];
    var i := 1;
    while i <= total
      invariant 1 <= i <= (if total >= 1 then total + 1 else 1)
      invariant Progress(pages, i, current, total)
    {
      if i == 1 || i == total || (i >= current - MaxVisible && i <= current + MaxVisible) {
        PushNumber(pages, i, current, total);
        pages := pages + [Number(i)];
      } else if pages[|pages| - 1] != Ellipsis {
        PushEllipsis(pages, i, current, total);
        pages := pages + [Ellipsis];
      } else {
        SkipAgain(pages, i, current, total);
      }
      i := i + 1;
    }
  }

  /** The first item shown, counted from 1; 0 when there are none. */
  function StartItem(current: int, totalItems: nat): int {
    if totalItems == 0 then 0 else (current - 1) * ItemsPerPage + 1
  }

  /** The last item shown. */
  function EndItem(current: int, totalItems: nat): int {
    Min(current * ItemsPerPage, totalItems)
  }

  /**
   * "Showing a-b of n" names exactly the items of the current page: for a page
   * that has items, a-b are their positions (from 1) in the whole listing.
   */
  lemma RangeIsPage<T>(s: seq<T>, current: nat)
    requires current >= 1 && (current - 1) * ItemsPerPage < |s|
    ensures StartItem(current, |s|) == (current - 1) * ItemsPerPage + 1
    ensures EndItem(current, |s|) - StartItem(current, |s|) + 1 == |Page(s, current, ItemsPerPage)|
  {
  }

  /** A page past the last one (or a listing with nothing in it) shows an empty range. */
  lemma RangePastEnd(current: nat, totalItems: nat)
    requires current >= 1 && (current - 1) * ItemsPerPage >= totalItems
    ensures EndItem(current, totalItems) < StartItem(current, totalItems) || totalItems == 0
  {
  }

  datatype Controls = Controls(startItem: int, endItem: int, pages: seq<PageEntry>,
                               prevDisabled: bool, nextDisabled: bool)

  /** `renderPaginationControls` without the markup. */
  method PaginationControls(current: int, totalPages: int, totalItems: nat) returns (c: Controls)
    ensures c.startItem == StartItem(current, totalItems) && c.endItem == EndItem(current, totalItems)
    ensures c.prevDisabled <==> current == 1
    ensures c.nextDisabled <==> current >= totalPages
    ensures forall n :: Number(n) in c.pages <==> 1 <= n <= totalPages && Listed(n, current, totalPages)
    ensures Increasing(c.pages) && Adjacent(c.pages) && GapsSkip(c.pages) && NoDoubleEllipsis(c.pages)
  {
    var pages := GetPages(current, totalPages);
    c := Controls(StartItem(current, totalItems), EndItem(current, totalItems), pages,
                  current == 1, current >= totalPages);
  }

  // ---------------------------------------------------------------------------
  // The product form
  // ---------------------------------------------------------------------------

  /** One variation row of the form, as typed. */
  datatype VariationRow = VariationRow(kind: string, value: string, stockText: string, sku: string)

  /** A variation as submitted (its price, `parseFloat` of the form's price, is not modelled). */
  datatype Variation = Variation(kind: string, value: string, stock: int, sku: string)

  /** One `.dynamic-attr` field: its `data-name` and its value. */
  datatype AttrField = AttrField(name: string, value: string)

  datatype FormInput = FormInput(name: string, sku: string, price: string, stock: string,
                                 category: string, subcategory: string, hasVariations: bool,
                                 rows: seq<VariationRow>, attrFields: seq<AttrField>)

  datatype Target = Create | Replace(id: string)

  /** What the form posts; `stock` and the flag travel as text, as in a multipart body. */
  datatype Submission = Submission(target: Target, name: string, sku: string, category: string,
                                   subcategory: string, price: string, hasVariations: string,
                                   stock: string, variations: seq<Variation>, attributes: map<string, string>)

  function VariationOf(row: VariationRow): (v: Variation)
    ensures v.stock == ParseIntOrZero(row.stockText)
    ensures v.kind == row.kind && v.value == row.value && v.sku == row.sku
  {
    Variation(row.kind, row.value, ParseIntOrZero(row.stockText), row.sku)
  }

  function Variations(rows: seq<VariationRow>): (vs: seq<Variation>)
    ensures |vs| == |rows| && forall i :: 0 <= i < |rows| ==> vs[i] == VariationOf(rows[i])
  {
    seq(|rows|, i requires 0 <= i < |rows| => VariationOf(rows[i]))
  }

  /** `variations.reduce((acc, v) => acc + v.stock, 0)`. */
  function TotalStock(vs: seq<Variation>): int {
    if vs == [] then 0 else TotalStock(vs[..|vs| - 1]) + vs[|vs| - 1].stock
  }

  /** The attribute map the `forEach` builds: a field with a value sets its name, a later field wins. */
  function AttrsOf(fields: seq<AttrField>): map<string, string> {
    if fields == [] then map[]
    else
      var last := fields[|fields| - 1];
      var init := AttrsOf(fields[..|fields| - 1]);
      if last.value != "" then init[last.name := last.value] else init
  }

  /** Some field names `k` with a non-empty value. */
  predicate Names(fields: seq<AttrField>, k: string) {
    exists i :: 0 <= i < |fields| && fields[i].name == k && fields[i].value != ""
  }

  /**
   * The attribute map holds exactly the names of the fields that have a value,
   * each with a non-empty value that some field of that name gave it.
   */
  lemma {:induction false} AttrsOfMeaning(fields: seq<AttrField>)
    ensures forall k :: k in AttrsOf(fields) <==> Names(fields, k)
    ensures forall k :: k in AttrsOf(fields) ==>
      (AttrsOf(fields)[k] != "" && exists i :: 0 <= i < |fields| && fields[i] == AttrField(k, AttrsOf(fields)[k]))
  {
    if fields != [] {
      var init := fields[..|fields| - 1];
      var last := fields[|fields| - 1];
      AttrsOfMeaning(init);
      forall k ensures k in AttrsOf(fields) <==> Names(fields, k) {
        if Names(init, k) {
          var i :| 0 <= i < |init| && init[i].name == k && init[i].value != "";
          assert fields[i] == init[i];
        }
        if Names(fields, k) && !(last.name == k && last.value != "") {
          var i :| 0 <= i < |fields| && fields[i].name == k && fields[i].value != "";
          assert init[i] == fields[i];
        }
      }
      forall k | k in AttrsOf(fields)
        ensures AttrsOf(fields)[k] != "" && exists i :: 0 <= i < |fields| && fields[i] == AttrField(k, AttrsOf(fields)[k])
      {
        if last.value != "" && k == last.name {
          assert fields[|fields| - 1] == AttrField(k, AttrsOf(fields)[k]);
        } else {
          var i :| 0 <= i < |init| && init[i] == AttrField(k, AttrsOf(init)[k]);
          assert fields[i] == init[i];
        }
      }
    }
  }

  /** The `forEach` over the attribute fields. */
  method CollectAttrs(fields: seq<AttrField>) returns (attrs: map<string, string>)
    ensures attrs == AttrsOf(fields)
  {
    attrs := map[];
    var i := 0;
    while i < |fields|
      invariant 0 <= i <= |fields|
      invariant attrs == AttrsOf(fields[..i])
    {
      if fields[i].value != "" {
        attrs := attrs[fields[i].name := fields[i].value];
      }
      assert fields[..i + 1][..i] == fields[..i];
      i := i + 1;
    }
    assert fields[..i] == fields;
  }

  /**
   * `saveProduct`: refuses without a name or a category; otherwise builds the
   * body, POSTing a new product or PUTting the one being edited.
   */
  method SaveProduct(input: FormInput, editing: Option<string>) returns (res: Result<Submission, string>)
    ensures res.Err? <==> input.name == "" || input.category == ""
    ensures res.Ok? ==>
      var s := res.value;
      && s.target == (if editing.Some? && editing.value != "" then Replace(editing.value) else Create)
      && s.name == input.name && s.sku == input.sku && s.category == input.category
      && s.subcategory == input.subcategory
      && s.price == (if input.price == "" then "0" else input.price)
      && s.hasVariations == (if input.hasVariations then "true" else "false")
      && s.variations == (if input.hasVariations then Variations(input.rows) else [])
      && s.stock == (if input.hasVariations then DecimalString(TotalStock(s.variations))
                     else if input.stock == "" then "0" else input.stock)
      && s.attributes == AttrsOf(input.attrFields)
  {
    if input.name == "" || input.category == "" {
      return Err("Nome e Categoria são obrigatórios");
    }
    var price := if input.price == "" then "0" else input.price;
    var variations: seq<Variation>;
    var stock: string;
    if input.hasVariations {
      variations := Variations(input.rows);
      stock := DecimalString(TotalStock(variations));
    } else {
      stock := if input.stock == "" then "0" else input.stock;
      variations := [];
    }
    var attrs := CollectAttrs(input.attrFields);
    var target := if editing.Some? && editing.value != "" then Replace(editing.value) else Create;
    res := Ok(Submission(target, input.name, input.sku, input.category, input.subcategory, price,
                         if input.hasVariations then "true" else "false", stock, variations, attrs));
  }

  lemma {:induction false} TotalStockOfRows(rows: seq<VariationRow>)
    ensures TotalStock(Variations(rows)) == SumOfParsed(rows)
  {
    if rows != [] {
      TotalStockOfRows(rows[..|rows| - 1]);
      assert Variations(rows)[..|rows| - 1] == Variations(rows[..|rows| - 1]);
    }
  }

  /** The stock of each row, `parseInt` or 0, added up. */
  function SumOfParsed(rows: seq<VariationRow>): int {
    if rows == [] then 0 else SumOfParsed(rows[..|rows| - 1]) + ParseIntOrZero(rows[|rows| - 1].stockText)
  }

  /**
   * With variations, the stock the server stores for the submission is the sum
   * of the rows' stocks (each `parseInt` or 0), and the flag it stores is the
   * checkbox.
   */
  lemma SubmittedStockIsTotal(input: FormInput, s: Submission)
    requires input.hasVariations
    requires s.variations == Variations(input.rows) && s.stock == DecimalString(TotalStock(s.variations))
    requires s.hasVariations == "true"
    ensures ProductStore.StockOf(Str(s.stock)) == SumOfParsed(input.rows)
    ensures ProductStore.FlagOf(Str(s.hasVariations))
  {
    TotalStockOfRows(input.rows);
    ParseIntDecimalString(TotalStock(s.variations));
  }

  // ---------------------------------------------------------------------------
  // Reading the listing response
  // ---------------------------------------------------------------------------

  /** What `loadInitialData` keeps from the response. */
  datatype Loaded = Loaded(products: Value, totalPages: Value, totalItems: Value)

  /**
   * `productData.products` when it is truthy, with its `pages` and `total`;
   * otherwise an array response itself (one page, its length as the total) or
   * nothing. Reading a field of `null` throws; the product list, page count and total keep their values.
   */
  function ReadListing(data: Value): (l: Option<Loaded>)
    ensures l.None? <==> data.Null?
    ensures l.Some? && data.Obj? && Truthy(Field(data.fields, "products")) ==>
      l.value == Loaded(data.fields["products"], Field(data.fields, "pages"), Field(data.fields, "total"))
    ensures l.Some? && data.List? ==> l.value == Loaded(data, Int(1), Int(|data.items|))
    ensures l.Some? && !data.List? && !(data.Obj? && Truthy(Field(data.fields, "products"))) ==>
      l.value == Loaded(List([]), Int(1), Int(0))
  {
    if data.Null? then None
    else if data.Obj? && Truthy(Field(data.fields, "products")) then
      Some(Loaded(data.fields["products"], Field(data.fields, "pages"), Field(data.fields, "total")))
    else if data.List? then Some(Loaded(data, Int(1), Int(|data.items|)))
    else Some(Loaded(List([]), Int(1), Int(0)))
  }

  /**
   * Against this backend the fallback never applies: the page takes the
   * listing's own records, page count and total, even for an empty page.
   */
  lemma ReadsBackendListing(l: ProductStore.Listing)
    ensures ReadListing(ProductStore.ListingJson(l)).Some?
    ensures var r := ReadListing(ProductStore.ListingJson(l)).value;
      && r.products.List? && |r.products.items| == |l.products|
      && r.totalItems == Int(l.total)
      && r.totalPages == (if l.pages.Some? then Int(l.pages.value) else Null)
  {
    var v := ProductStore.ListingJson(l);
    assert Truthy(Field(v.fields, "products"));
  }
}
