/**
 * The public catalogue page: the filter that decides which products are on
 * screen, the page of 20 the grid shows, the attribute selectors and brand
 * list derived from the products, and the view state that the navigation
 * handlers change.
 *
 * Products are the records the listing endpoint sends, reduced to the fields
 * the page reads; a missing `sku`, `category` or `subcategory` reads as `""`
 * and missing `attributes` as an empty map. Search text is lower-cased by
 * `Text.LowerStr`.
 */
module CatalogView {
  import opened Wrappers
  import opened Text
  import opened Documents
  import opened Paging
  import opened Selection

  const ItemsPerPage: nat := 20
  /** The HOME and CATEGORY showcases show this many products per section. */
  const SectionSize: nat := 4

  datatype Product = Product(name: string, sku: string, category: string, subcategory: string,
                             attributes: map<string, string>)

  datatype CategoryInfo = CategoryInfo(name: string, subcategories: seq<string>)

  datatype View = HomeView | CategoryView | SubcategoryView

  // ---------------------------------------------------------------------------
  // The filter
  // ---------------------------------------------------------------------------

  /** The name, or a present sku, contains the (already lower-cased) search text. */
  predicate MatchesSearch(p: Product, search: string) {
    Contains(LowerStr(p.name), search) || (p.sku != "" && Contains(LowerStr(p.sku), search))
  }

  /** The first `filter`: search text, then category and subcategory when they are set. */
  predicate Passes(p: Product, search: string, cat: Option<string>, sub: Option<string>) {
    && MatchesSearch(p, search)
    && (IsSet(cat) ==> p.category == cat.value)
    && (IsSet(sub) ==> p.subcategory == sub.value)
  }

  predicate HasAttr(p: Product, key: string, val: string) {
    key in p.attributes && p.attributes[key] == val
  }

  /** Every active attribute filter is met exactly. */
  predicate AttrsMatch(p: Product, filters: map<string, string>) {
    forall k :: k in filters ==> HasAttr(p, k, filters[k])
  }

  /** What the page shows a product for: the whole conjunction of the filters. */
  predicate Visible(p: Product, search: string, cat: Option<string>, sub: Option<string>,
                    filters: map<string, string>) {
    Passes(p, search, cat, sub) && AttrsMatch(p, filters)
  }

  /** The whole filter as a test on one product. */
  function VisibleTest(search: string, cat: Option<string>, sub: Option<string>,
                       filters: map<string, string>): Product -> bool {
    p => Visible(p, search, cat, sub, filters)
  }

  /** The products on screen, in catalogue order: one pass of the whole filter. */
  function Shown(ps: seq<Product>, search: string, cat: Option<string>, sub: Option<string>,
                 filters: map<string, string>): (r: seq<Product>)
    ensures |r| <= |ps|
    ensures forall p :: p in r <==> p in ps && Visible(p, search, cat, sub, filters)
  {
    if ps == [] then []
    else if Visible(ps[0], search, cat, sub, filters) then [ps[0]] + Shown(ps[1..], search, cat, sub, filters)
    else Shown(ps[1..], search, cat, sub, filters)
  }

  /** The products on screen are exactly the visible ones, every copy, in catalogue order. */
  lemma {:induction false} ShownInOrder(ps: seq<Product>, search: string, cat: Option<string>, sub: Option<string>,
                                        filters: map<string, string>)
    ensures IsFilter(Shown(ps, search, cat, sub, filters), ps, VisibleTest(search, cat, sub, filters))
  {
    if ps == [] {
      FilterNil(VisibleTest(search, cat, sub, filters));
    } else {
      ShownInOrder(ps[1..], search, cat, sub, filters);
      FilterCons(Shown(ps[1..], search, cat, sub, filters), ps, VisibleTest(search, cat, sub, filters));
    }
  }

  /** The products the first `filter` keeps. */
  function Matching(ps: seq<Product>, search: string, cat: Option<string>, sub: Option<string>): seq<Product> {
    if ps == [] then []
    else if Passes(ps[0], search, cat, sub) then [ps[0]] + Matching(ps[1..], search, cat, sub)
    else Matching(ps[1..], search, cat, sub)
  }

  /** One attribute filter, as one round of the `forEach` applies it. */
  function KeepAttr(ps: seq<Product>, key: string, val: string): seq<Product> {
    if ps == [] then []
    else if HasAttr(ps[0], key, val) then [ps[0]] + KeepAttr(ps[1..], key, val)
    else KeepAttr(ps[1..], key, val)
  }

  /** The filters whose keys are in `done`, all applied. */
  function KeepAll(ps: seq<Product>, filters: map<string, string>, done: set<string>): seq<Product>
    requires done <= filters.Keys
  {
    if ps == [] then []
    else if forall k :: k in done ==> HasAttr(ps[0], k, filters[k]) then [ps[0]] + KeepAll(ps[1..], filters, done)
    else KeepAll(ps[1..], filters, done)
  }

  lemma {:induction false} KeepNone(ps: seq<Product>, filters: map<string, string>)
    ensures KeepAll(ps, filters, {}) == ps
  {
    if ps != [] {
      KeepNone(ps[1..], filters);
      assert [ps[0]] + ps[1..] == ps;
    }
  }

  /** Applying one more attribute filter to the products that passed the earlier ones. */
  lemma {:induction false} KeepStep(ps: seq<Product>, filters: map<string, string>, done: set<string>, key: string)
    requires done <= filters.Keys && key in filters
    ensures KeepAttr(KeepAll(ps, filters, done), key, filters[key]) == KeepAll(ps, filters, done + {key})
  {
    if ps != [] {
      KeepStep(ps[1..], filters, done, key);
      var rest := KeepAll(ps[1..], filters, done);
      if forall k :: k in done ==> HasAttr(ps[0], k, filters[k]) {
        assert ([ps[0]] + rest)[0] == ps[0] && ([ps[0]] + rest)[1..] == rest;
      }
    }
  }

  /** The first filter followed by every attribute filter is the one-pass filter. */
  lemma {:induction false} FiltersCompose(ps: seq<Product>, search: string, cat: Option<string>,
                                          sub: Option<string>, filters: map<string, string>)
    ensures KeepAll(Matching(ps, search, cat, sub), filters, filters.Keys) == Shown(ps, search, cat, sub, filters)
  {
    if ps != [] {
      FiltersCompose(ps[1..], search, cat, sub, filters);
      var rest := Matching(ps[1..], search, cat, sub);
      if Passes(ps[0], search, cat, sub) {
        assert ([ps[0]] + rest)[0] == ps[0] && ([ps[0]] + rest)[1..] == rest;
      }
    }
  }

  // ---------------------------------------------------------------------------
  // Attribute selectors and brands
  // ---------------------------------------------------------------------------

  /** `opts` with the entries of `attrs` whose keys are in `ks` added to the value sets. */
  function AddEntries(opts: map<string, set<string>>, attrs: map<string, string>, ks: set<string>): map<string, set<string>>
    requires ks <= attrs.Keys
  {
    map k | k in opts.Keys + ks ::
      (if k in opts then opts[k] else {}) + (if k in ks then {attrs[k]} else {})
  }

  /** The value sets `renderAttributeSelectors` collects from `ps`. */
  function OptionsOf(ps: seq<Product>): map<string, set<string>> {
    if ps == [] then map[]
    else
      var last := ps[|ps| - 1];
      AddEntries(OptionsOf(ps[..|ps| - 1]), last.attributes, last.attributes.Keys)
  }

  /** `m` with `v` added to the value set of `k` (the set created first when `k` has none). */
  function Insert(m: map<string, set<string>>, k: string, v: string): map<string, set<string>> {
    m[k := (if k in m then m[k] else {}) + {v}]
  }

  lemma AddNothing(opts: map<string, set<string>>, attrs: map<string, string>)
    ensures AddEntries(opts, attrs, {}) == opts
  {
    var m := AddEntries(opts, attrs, {});
    assert m.Keys == opts.Keys;
    forall j | j in m ensures m[j] == opts[j] {
    }
  }

  /** Adding the entry for one more key of `attrs`. */
  lemma AddOne(opts: map<string, set<string>>, attrs: map<string, string>, ks: set<string>, k: string)
    requires ks <= attrs.Keys && k in attrs && k !in ks
    ensures Insert(AddEntries(opts, attrs, ks), k, attrs[k]) == AddEntries(opts, attrs, ks + {k})
  {
    var lhs := Insert(AddEntries(opts, attrs, ks), k, attrs[k]);
    var rhs := AddEntries(opts, attrs, ks + {k});
    assert lhs.Keys == rhs.Keys;
    forall j | j in lhs ensures lhs[j] == rhs[j] {
    }
  }

  /** The selectors offer key `k` exactly when some product has it. */
  lemma {:induction false} OptionsKey(ps: seq<Product>, k: string)
    ensures k in OptionsOf(ps) <==> exists i :: 0 <= i < |ps| && k in ps[i].attributes
  {
    if ps != [] {
      var init := ps[..|ps| - 1];
      OptionsKey(init, k);
      if k in OptionsOf(ps) && k !in ps[|ps| - 1].attributes {
        var i :| 0 <= i < |init| && k in init[i].attributes;
        assert ps[i] == init[i];
      }
      if exists i :: 0 <= i < |ps| && k in ps[i].attributes {
        var i :| 0 <= i < |ps| && k in ps[i].attributes;
        if i < |init| { assert init[i] == ps[i]; }
      }
    }
  }

  /** Some product of `ps` gives key `k` the value `v`. */
  predicate Gives(ps: seq<Product>, k: string, v: string) {
    exists i :: 0 <= i < |ps| && HasAttr(ps[i], k, v)
  }

  lemma GivesSplit(ps: seq<Product>, k: string, v: string)
    requires ps != []
    ensures Gives(ps, k, v) <==> Gives(ps[..|ps| - 1], k, v) || HasAttr(ps[|ps| - 1], k, v)
  {
    var init := ps[..|ps| - 1];
    if Gives(init, k, v) {
      var i :| 0 <= i < |init| && HasAttr(init[i], k, v);
      assert ps[i] == init[i];
    }
    if Gives(ps, k, v) && !HasAttr(ps[|ps| - 1], k, v) {
      var i :| 0 <= i < |ps| && HasAttr(ps[i], k, v);
      assert init[i] == ps[i];
    }
  }

  /** Key `k` offers value `v` exactly when some product gives `k` that value. */
  lemma {:induction false} OptionsValue(ps: seq<Product>, k: string, v: string)
    requires k in OptionsOf(ps)
    ensures v in OptionsOf(ps)[k] <==> Gives(ps, k, v)
  {
    var init := ps[..|ps| - 1];
    GivesSplit(ps, k, v);
    if k in OptionsOf(init) {
      OptionsValue(init, k, v);
    } else {
      OptionsKey(init, k);
      assert !Gives(init, k, v);
    }
  }

  /**
   * The selectors offer a key exactly when some product has it, and for each
   * key exactly the distinct values the products give it.
   */
  lemma OptionsMeaning(ps: seq<Product>)
    ensures forall k :: k in OptionsOf(ps) <==> exists i :: 0 <= i < |ps| && k in ps[i].attributes
    ensures forall k, v :: k in OptionsOf(ps) ==> (v in OptionsOf(ps)[k] <==> Gives(ps, k, v))
  {
    forall k ensures k in OptionsOf(ps) <==> exists i :: 0 <= i < |ps| && k in ps[i].attributes {
      OptionsKey(ps, k);
    }
    forall k, v | k in OptionsOf(ps) ensures v in OptionsOf(ps)[k] <==> Gives(ps, k, v)
    {
      OptionsValue(ps, k, v);
    }
  }

  /** `renderAttributeSelectors`: fills a map of value sets, product by product, entry by entry. */
  method AttributeOptions(products: seq<Product>) returns (opts: map<string, set<string>>)
    ensures opts == OptionsOf(products)
  {
    opts := map[];
    var i := 0;
    while i < |products|
      invariant 0 <= i <= |products|
      invariant opts == OptionsOf(products[..i])
    {
      var attrs := products[i].attributes;
      ghost var before := opts;
      var todo := attrs.Keys;
      AddNothing(before, attrs);
      while todo != {}
        invariant todo <= attrs.Keys
        invariant opts == AddEntries(before, attrs, attrs.Keys - todo)
        decreases todo
      {
        var k :| k in todo;
        ghost var done := attrs.Keys - todo;
        opts := Insert(opts, k, attrs[k]);
        AddOne(before, attrs, done, k);
        todo := todo - {k};
        assert attrs.Keys - todo == done + {k};
      }
      assert attrs.Keys - todo == attrs.Keys;
      assert products[..i + 1][..i] == products[..i];
      i := i + 1;
    }
    assert products[..i] == products;
  }

  /** `[...new Set(xs)]`: the distinct elements, each where it first occurs. */
  function Distinct(xs: seq<string>): (r: seq<string>)
    ensures forall x :: x in r <==> x in xs
    ensures forall a, b :: 0 <= a < b < |r| ==> r[a] != r[b]
  {
    if xs == [] then []
    else
      var init := Distinct(xs[..|xs| - 1]);
      assert forall x :: x in xs <==> x in xs[..|xs| - 1] || x == xs[|xs| - 1];
      if xs[|xs| - 1] in xs[..|xs| - 1] then init else init + [xs[|xs| - 1]]
  }

  /** The subcategories of the products in category `cat`, in catalogue order. */
  function SubcategoriesIn(ps: seq<Product>, cat: string): (r: seq<string>)
    ensures forall s :: s in r <==> exists i :: 0 <= i < |ps| && ps[i].category == cat && ps[i].subcategory == s
  {
    if ps == [] then []
    else
      var rest := SubcategoriesIn(ps[1..], cat);
      assert forall i :: 0 < i < |ps| ==> ps[i] == ps[1..][i - 1];
      assert forall i :: 0 <= i < |ps| - 1 ==> ps[1..][i] == ps[i + 1];
      if ps[0].category == cat then [ps[0].subcategory] + rest else rest
  }

  /** `setupBrandSelect`: the distinct subcategories of every loaded product in the active category. */
  function Brands(ps: seq<Product>, cat: string): (bs: seq<string>)
    ensures forall s :: s in bs <==> exists i :: 0 <= i < |ps| && ps[i].category == cat && ps[i].subcategory == s
    ensures forall a, b :: 0 <= a < b < |bs| ==> bs[a] != bs[b]
  {
    Distinct(SubcategoriesIn(ps, cat))
  }

  // ---------------------------------------------------------------------------
  // What `render` puts on screen
  // ---------------------------------------------------------------------------

  /** A showcase section: its category (HOME) or subcategory (CATEGORY) and the products it shows. */
  datatype Section = Section(name: string, items: seq<Product>)

  datatype Screen =
    | Sections(sections: seq<Section>)
    | Grid(items: seq<Product>, page: nat, pages: nat)
    | NoResults

  /** Whether a product is in category `name` (`byCategory`) or subcategory `name`. */
  function GroupTest(name: string, byCategory: bool): Product -> bool {
    (p: Product) => (if byCategory then p.category else p.subcategory) == name
  }

  /** The products of `ps` in category `name` (`byCategory`) or subcategory `name`, in catalogue order. */
  function Group(ps: seq<Product>, name: string, byCategory: bool): (g: seq<Product>)
    ensures forall p :: p in g <==> p in ps && (if byCategory then p.category else p.subcategory) == name
  {
    if ps == [] then []
    else
      var rest := Group(ps[1..], name, byCategory);
      if (if byCategory then ps[0].category else ps[0].subcategory) == name then [ps[0]] + rest else rest
  }

  /** A group is every product of that category or subcategory, each copy, in catalogue order. */
  lemma {:induction false} GroupInOrder(ps: seq<Product>, name: string, byCategory: bool)
    ensures IsFilter(Group(ps, name, byCategory), ps, GroupTest(name, byCategory))
  {
    if ps == [] {
      FilterNil(GroupTest(name, byCategory));
    } else {
      GroupInOrder(ps[1..], name, byCategory);
      FilterCons(Group(ps[1..], name, byCategory), ps, GroupTest(name, byCategory));
    }
  }

  /** A section showing the first one to four products of its group. */
  predicate ShowsGroup(filtered: seq<Product>, byCategory: bool, s: Section) {
    var g := Group(filtered, s.name, byCategory);
    && 1 <= |s.items| <= SectionSize
    && |s.items| <= |g| && s.items == g[..|s.items|]
  }

  /**
   * One section per name whose group is not empty, in the order of `names`,
   * holding the first four products of that group.
   */
  function Showcase(filtered: seq<Product>, names: seq<string>, byCategory: bool): (ss: seq<Section>)
    ensures |ss| <= |names|
    ensures forall j :: 0 <= j < |ss| ==> ss[j].name in names && ShowsGroup(filtered, byCategory, ss[j])
  {
    if names == [] then []
    else
      var g := Group(filtered, names[0], byCategory);
      var rest := Showcase(filtered, names[1..], byCategory);
      assert forall n :: n in names[1..] ==> n in names;
      assert forall n :: n in names ==> n == names[0] || n in names[1..];
      if g == [] then rest
      else
        var s := Section(names[0], g[..Min(SectionSize, |g|)]);
        assert ([s] + rest)[0] == s;
        assert forall j :: 0 < j < 1 + |rest| ==> ([s] + rest)[j] == rest[j - 1];
        [s] + rest
  }

  /** Every name whose group is not empty gets a section. */
  lemma {:induction false} ShowcaseComplete(filtered: seq<Product>, names: seq<string>, byCategory: bool, n: string)
    requires n in names && Group(filtered, n, byCategory) != []
    ensures exists j :: 0 <= j < |Showcase(filtered, names, byCategory)| && Showcase(filtered, names, byCategory)[j].name == n
  {
    var ss := Showcase(filtered, names, byCategory);
    if names[0] == n {
      assert ss[0].name == n;
    } else {
      assert n in names[1..];
      ShowcaseComplete(filtered, names[1..], byCategory, n);
      var rest := Showcase(filtered, names[1..], byCategory);
      var j :| 0 <= j < |rest| && rest[j].name == n;
      if Group(filtered, names[0], byCategory) == [] {
        assert ss[j] == rest[j];
      } else {
        assert ss[j + 1] == rest[j];
      }
    }
  }

  /** `categories.find(c => c.name === activeCat)`. */
  function FindCategory(cats: seq<CategoryInfo>, name: Option<string>): (c: Option<CategoryInfo>)
    ensures c.Some? ==> name.Some? && c.value in cats && c.value.name == name.value
    ensures c.Some? ==> exists i :: 0 <= i < |cats| && cats[i] == c.value
                                    && forall j :: 0 <= j < i ==> cats[j].name != name.value
    ensures c.None? ==> forall i :: 0 <= i < |cats| ==> name.None? || cats[i].name != name.value
  {
    if name.None? || cats == [] then None
    else if cats[0].name == name.value then Some(cats[0])
    else
      var c := FindCategory(cats[1..], name);
      assert forall i :: 0 < i < |cats| ==> cats[i] == cats[1..][i - 1];
      c
  }

  function Names(cats: seq<CategoryInfo>): (ns: seq<string>)
    ensures |ns| == |cats| && forall i :: 0 <= i < |cats| ==> ns[i] == cats[i].name
  {
    seq(|cats|, i requires 0 <= i < |cats| => cats[i].name)
  }

  /**
   * The choice `render` makes: the HOME or CATEGORY showcase when nothing is
   * being filtered, otherwise the current page of the grid (or the empty
   * notice when nothing passes).
   */
  function ScreenFor(filtered: seq<Product>, cats: seq<CategoryInfo>, view: View, activeCat: Option<string>,
                     search: string, filters: map<string, string>, page: nat): (s: Screen)
    requires page >= 1
    ensures s.NoResults? ==> filtered == []
    ensures s.Grid? ==> filtered != [] && |s.items| <= ItemsPerPage && s.page == page
    ensures s.Grid? ==> s.pages * ItemsPerPage >= |filtered| > (s.pages - 1) * ItemsPerPage
    ensures s.Grid? ==> forall k :: 0 <= k < |s.items| ==>
      (page - 1) * ItemsPerPage + k < |filtered| && s.items[k] == filtered[(page - 1) * ItemsPerPage + k]
    ensures s.Sections? ==> forall j, p :: 0 <= j < |s.sections| && p in s.sections[j].items ==> p in filtered
    ensures s.Sections? ==> forall j :: 0 <= j < |s.sections| ==> 1 <= |s.sections[j].items| <= SectionSize
  {
    var filtering := |filters| > 0 || |LowerStr(search)| > 0;
    if view == HomeView && !filtering then
      Sections(Showcase(filtered, Names(cats), true))
    else if view == CategoryView && !filtering then
      match FindCategory(cats, activeCat)
      case None => Sections([])
      case Some(c) => Sections(Showcase(filtered, c.subcategories, false))
    else if filtered == [] then NoResults
    else Grid(Page(filtered, page, ItemsPerPage), page, CeilDiv(|filtered|, ItemsPerPage))
  }

  // ---------------------------------------------------------------------------
  // The page's state
  // ---------------------------------------------------------------------------

  class Catalog {
    var allProducts: seq<Product>
    var categories: seq<CategoryInfo>
    var currentView: View
    var activeCat: Option<string>
    var activeSub: Option<string>
    var activeFilters: map<string, string>
    var currentPage: nat
    /** The text of the search box, which `render` reads on every call. */
    var searchText: string

    /** Pages count from 1, and a filter is only ever stored with a chosen (non-empty) value. */
    ghost predicate Valid()
      reads this
    {
      currentPage >= 1 && forall k :: k in activeFilters ==> activeFilters[k] != ""
    }

    constructor()
      ensures Valid()
      ensures allProducts == [] && categories == [] && currentView == HomeView
      ensures activeCat == None && activeSub == None && activeFilters == map[] && currentPage == 1
      ensures searchText == ""
    {
      allProducts := [];
      categories := [];
      currentView := HomeView;
      activeCat := None;
      activeSub := None;
      activeFilters := map[];
      currentPage := 1;
      searchText := "";
    }

    /** `init`: the category list and the response's `products`, or no products when it has none. */
    method Load(cats: seq<CategoryInfo>, products: Option<seq<Product>>)
      requires Valid()
      modifies this
      ensures Valid()
      ensures categories == cats && allProducts == products.GetOr([])
      ensures currentView == old(currentView) && activeCat == old(activeCat) && activeSub == old(activeSub)
      ensures activeFilters == old(activeFilters) && currentPage == old(currentPage)
      ensures searchText == old(searchText)
    {
      categories := cats;
      allProducts := products.GetOr([]);
    }

    method ChangeView(view: View, cat: Option<string>, sub: Option<string>)
      requires Valid()
      modifies this
      ensures Valid()
      ensures currentView == view && activeCat == cat && activeSub == sub && currentPage == 1
      ensures activeFilters == if view == HomeView then map[] else old(activeFilters)
      ensures allProducts == old(allProducts) && categories == old(categories) && searchText == old(searchText)
    {
      currentView, activeCat, activeSub := view, cat, sub;
      if view == HomeView {
        activeFilters := map[];
      }
      currentPage := 1;
    }

    /** `handleSubFilter`: the brand select; its empty option goes back to the whole category. */
    method HandleSubFilter(sub: string)
      requires Valid()
      modifies this
      ensures Valid()
      ensures activeCat == old(activeCat) && currentPage == 1 && activeFilters == old(activeFilters)
      ensures sub == "" ==> currentView == CategoryView && activeSub == None
      ensures sub != "" ==> currentView == SubcategoryView && activeSub == Some(sub)
      ensures allProducts == old(allProducts) && categories == old(categories) && searchText == old(searchText)
    {
      if sub == "" {
        ChangeView(CategoryView, activeCat, None);
      } else {
        ChangeView(SubcategoryView, activeCat, Some(sub));
      }
    }

    /** `resetAll`: an empty search box, no attribute filters, back to HOME. */
    method ResetAll()
      requires Valid()
      modifies this
      ensures Valid()
      ensures searchText == ""
      ensures currentView == HomeView && activeCat == None && activeSub == None
      ensures activeFilters == map[] && currentPage == 1
      ensures allProducts == old(allProducts) && categories == old(categories)
    {
      searchText := "";
      activeFilters := map[];
      ChangeView(HomeView, None, None);
    }

    /** `setAttrFilter`: the empty choice removes the key, any other value sets it. */
    method SetAttrFilter(key: string, val: string)
      requires Valid()
      modifies this
      ensures Valid()
      ensures activeFilters == if val == "" then old(activeFilters) - {key} else old(activeFilters)[key := val]
      ensures currentPage == 1
      ensures currentView == old(currentView) && activeCat == old(activeCat) && activeSub == old(activeSub)
      ensures allProducts == old(allProducts) && categories == old(categories) && searchText == old(searchText)
    {
      if val == "" {
        activeFilters := activeFilters - {key};
      } else {
        activeFilters := activeFilters[key := val];
      }
      currentPage := 1;
    }

    /** `handleSearch`, run as the search box changes to `text`: a new search starts from the first page. */
    method HandleSearch(text: string)
      requires Valid()
      modifies this`currentPage, this`searchText
      ensures Valid() && currentPage == 1 && searchText == text
    {
      searchText := text;
      currentPage := 1;
    }

    /** `goToPage`: the pager's buttons; the previous-page button is disabled on page 1. */
    method GoToPage(p: nat)
      requires Valid() && p >= 1
      modifies this`currentPage
      ensures Valid() && currentPage == p
    {
      currentPage := p;
    }

    /** The two filtering steps of `render`: the search/category filter, then one round per attribute filter. */
    method Filtered(search: string) returns (filtered: seq<Product>)
      ensures filtered == Shown(allProducts, LowerStr(search), activeCat, activeSub, activeFilters)
    {
      var term := LowerStr(search);
      var base := Matching(allProducts, term, activeCat, activeSub);
      filtered := base;
      var todo := activeFilters.Keys;
      KeepNone(base, activeFilters);
      assert activeFilters.Keys - todo == {};
      while todo != {}
        invariant todo <= activeFilters.Keys
        invariant filtered == KeepAll(base, activeFilters, activeFilters.Keys - todo)
        decreases todo
      {
        var key :| key in todo;
        KeepStep(base, activeFilters, activeFilters.Keys - todo, key);
        assert (activeFilters.Keys - todo) + {key} == activeFilters.Keys - (todo - {key});
        filtered := KeepAttr(filtered, key, activeFilters[key]);
        todo := todo - {key};
      }
      assert activeFilters.Keys - todo == activeFilters.Keys;
      FiltersCompose(allProducts, term, activeCat, activeSub, activeFilters);
    }

    /**
     * `render`: the screen, the attribute selectors offered for the filtered
     * products, and the brand list when a category is active.
     */
    method Render() returns (screen: Screen, selectors: map<string, set<string>>, brands: Option<seq<string>>)
      requires Valid()
      ensures var shown := Shown(allProducts, LowerStr(searchText), activeCat, activeSub, activeFilters);
        && screen == ScreenFor(shown, categories, currentView, activeCat, searchText, activeFilters, currentPage)
        && selectors == OptionsOf(shown)
      ensures brands == if IsSet(activeCat) then Some(Brands(allProducts, activeCat.value)) else None
    {
      var filtered := Filtered(searchText);
      selectors := AttributeOptions(filtered);
      brands := if IsSet(activeCat) then Some(Brands(allProducts, activeCat.value)) else None;
      screen := ScreenFor(filtered, categories, currentView, activeCat, searchText, activeFilters, currentPage);
    }
  }

  /** With an empty search box and no filters, as `resetAll` leaves the page, every product is on screen. */
  lemma {:induction false} ShownAfterReset(ps: seq<Product>)
    ensures Shown(ps, LowerStr(""), None, None, map[]) == ps
  {
    if ps != [] {
      assert OccursAt(LowerStr(ps[0].name), LowerStr(""), 0);
      ShownAfterReset(ps[1..]);
      assert [ps[0]] + ps[1..] == ps;
    }
  }

  lemma AttrsMatchExtend(p: Product, filters: map<string, string>, key: string, val: string)
    requires key !in filters
    ensures AttrsMatch(p, filters[key := val]) <==> AttrsMatch(p, filters) && HasAttr(p, key, val)
  {
    if AttrsMatch(p, filters[key := val]) {
      assert HasAttr(p, key, filters[key := val][key]);
      forall k | k in filters ensures HasAttr(p, k, filters[k]) {
        assert HasAttr(p, k, filters[key := val][k]);
      }
    }
  }

  /**
   * Choosing a value for a new attribute key narrows the products on screen to
   * those of the old ones that carry that value; choosing the empty option
   * again gives back exactly the old list.
   */
  lemma {:induction false} AttrFilterNarrows(ps: seq<Product>, search: string, cat: Option<string>,
                                             sub: Option<string>, filters: map<string, string>,
                                             key: string, val: string)
    requires key !in filters
    ensures Shown(ps, search, cat, sub, filters[key := val]) == KeepAttr(Shown(ps, search, cat, sub, filters), key, val)
    ensures Shown(ps, search, cat, sub, filters[key := val] - {key}) == Shown(ps, search, cat, sub, filters)
  {
    assert filters[key := val] - {key} == filters;
    if ps != [] {
      AttrFilterNarrows(ps[1..], search, cat, sub, filters, key, val);
      AttrsMatchExtend(ps[0], filters, key, val);
      var rest := Shown(ps[1..], search, cat, sub, filters);
      if Visible(ps[0], search, cat, sub, filters) {
        assert ([ps[0]] + rest)[0] == ps[0] && ([ps[0]] + rest)[1..] == rest;
      }
    }
  }
}
