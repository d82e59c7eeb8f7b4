/**
 * The query that `GET /api/products` builds from its `search`, `category`
 * and `subcategory` parameters (backend/src/index.js), and what that query
 * means for a stored product.
 *
 * The search term is trimmed and split on runs of white space; every keyword
 * has its regular-expression metacharacters escaped and becomes one
 * case-insensitive name condition that requires the keyword to stand between
 * word boundaries (start or end of the name, white space, `/` or `-`). The name
 * must satisfy every condition, or the sku must equal the trimmed term.
 *
 * No regular-expression engine is modelled: a name condition is given meaning
 * only for the pattern shape the builder produces, and the boundary rule is
 * stated directly over strings.
 */
module SearchQuery {
  import opened Wrappers
  import opened Text
  import opened Documents

  // ---------------------------------------------------------------------------
  // Escaping
  // ---------------------------------------------------------------------------

  /** The characters of the class `[.*+?^${}()|[\]\\]` that the escape rewrites. */
  predicate IsRegexMeta(c: char) {
    c in ".*+?^${}()|[]\\"
  }

  /**
   * The text a regular-expression source denotes when it is built only from
   * plain characters and backslash-escaped metacharacters; `None` when it
   * holds an operator (an unescaped metacharacter) or any other escape.
   */
  function Literal(p: string): Option<string> {
    if p == [] then Some([])
    else if p[0] == '\\' then
      if |p| >= 2 && IsRegexMeta(p[1]) then Prepend(p[1], Literal(p[2..])) else None
    else if IsRegexMeta(p[0]) then None
    else Prepend(p[0], Literal(p[1..]))
  }

  function Prepend(c: char, o: Option<string>): Option<string> {
    match o
    case Some(s) => Some([c] + s)
    case None => None
  }

  /**
   * `word.replace(/[.*+?^${}()|[\]\\]/g, '\\$&')`: a backslash before every
   * metacharacter. The result denotes the keyword itself, character for
   * character, so the keyword is matched literally.
   */
  function Escape(w: string): (r: string)
    ensures Literal(r) == Some(w)
    ensures |r| >= |w|
  {
    if w == [] then []
    else
      var head := if IsRegexMeta(w[0]) then ['\\', w[0]] else [w[0]];
      var r := head + Escape(w[1..]);
      assert [w[0]] + w[1..] == w;
      assert IsRegexMeta(w[0]) ==> r[0] == '\\' && r[1] == w[0] && r[2..] == Escape(w[1..]);
      assert !IsRegexMeta(w[0]) ==> r[0] == w[0] && r[1..] == Escape(w[1..]);
      r
  }

  /** A keyword without metacharacters is left as it is. */
  lemma {:induction false} EscapePlain(w: string)
    requires forall k :: 0 <= k < |w| ==> !IsRegexMeta(w[k])
    ensures Escape(w) == w
  {
    if w != [] {
      EscapePlain(w[1..]);
    }
  }

  // ---------------------------------------------------------------------------
  // The boundary rule
  // ---------------------------------------------------------------------------

  /** The store's regular-expression `\s` (ASCII white space), `/` and `-`. */
  predicate IsBoundary(c: char) {
    (9 <= c as int <= 13) || c == ' ' || c == '/' || c == '-'
  }

  /** `kw` occurs in `name` at offset `i`, ignoring case, with a boundary on each side. */
  predicate WordAt(name: string, kw: string, i: int) {
    0 <= i && i + |kw| <= |name|
    && EqualsIgnoreCase(name[i..i + |kw|], kw)
    && (i == 0 || IsBoundary(name[i - 1]))
    && (i + |kw| == |name| || IsBoundary(name[i + |kw|]))
  }

  /** Some offset at or after `from` satisfies `WordAt`. */
  function HasWordFrom(name: string, kw: string, from: nat): (b: bool)
    ensures b <==> exists i :: from <= i && WordAt(name, kw, i)
    decreases |name| - from
  {
    if from + |kw| > |name| then
      assert forall i :: from <= i ==> !WordAt(name, kw, i);
      false
    else if WordAt(name, kw, from) then true
    else
      var b := HasWordFrom(name, kw, from + 1);
      assert forall i :: from <= i && WordAt(name, kw, i) ==> from + 1 <= i;
      b
  }

  /** The boundary-aware, case-insensitive match of one keyword against a name. */
  function HasWord(name: string, kw: string): (b: bool)
    ensures b <==> exists i :: WordAt(name, kw, i)
  {
    HasWordFrom(name, kw, 0)
  }

  // ---------------------------------------------------------------------------
  // Query documents
  // ---------------------------------------------------------------------------

  const PatternHead: string := "(^|\\s|[\\/\\-])("
  const PatternTail: string := ")($|\\s|[\\/\\-])"

  /** The template `(^|\s|[\/\-])(${s})($|\s|[\/\-])` filled with an escaped keyword. */
  function BoundaryPattern(s: string): string {
    PatternHead + s + PatternTail
  }

  /** The keyword a pattern of the builder's shape looks for; `None` for any other pattern. */
  function PatternKeyword(p: string): Option<string> {
    if |p| >= |PatternHead| + |PatternTail|
       && p[..|PatternHead|] == PatternHead
       && p[|p| - |PatternTail|..] == PatternTail
    then Literal(p[|PatternHead|..|p| - |PatternTail|])
    else None
  }

  /** `{ name: { $regex: pattern, $options: 'i' } }`. */
  datatype NameCondition = NameRegex(pattern: string)

  /** An element of the query's `$and` list. */
  datatype Clause =
    | CategoryIs(category: string)          // { category }
    | SubcategoryIs(subcategory: string)    // { subcategory }
    | TextMatch(names: seq<NameCondition>, sku: string)
      // { $or: [ { $and: names }, { sku } ] }

  /** The query object: optional top-level `category`, `subcategory` and `$and` keys. */
  datatype QueryDoc = QueryDoc(category: Option<string>, subcategory: Option<string>, and: Option<seq<Clause>>)

  predicate NameConditionHolds(d: Doc, c: NameCondition) {
    match Field(d, "name")
    case Str(n) =>
      (match PatternKeyword(c.pattern)
       case Some(kw) => HasWord(n, kw)
       case None => false)
    case _ => false
  }

  predicate ClauseHolds(d: Doc, c: Clause) {
    match c
    case CategoryIs(v) => Field(d, "category") == Str(v)
    case SubcategoryIs(v) => Field(d, "subcategory") == Str(v)
    case TextMatch(names, sku) =>
      (forall k :: 0 <= k < |names| ==> NameConditionHolds(d, names[k]))
      || Field(d, "sku") == Str(sku)
  }

  /** The store's reading of a query object: every key present must hold. */
  predicate QueryHolds(q: QueryDoc, d: Doc) {
    && (q.category.Some? ==> Field(d, "category") == Str(q.category.value))
    && (q.subcategory.Some? ==> Field(d, "subcategory") == Str(q.subcategory.value))
    && (q.and.Some? ==> forall k :: 0 <= k < |q.and.value| ==> ClauseHolds(d, q.and.value[k]))
  }

  // ---------------------------------------------------------------------------
  // What the listing is meant to select
  // ---------------------------------------------------------------------------

  /** The keywords of a search: the trimmed term split on runs of white space. */
  function Keywords(search: string): (ws: seq<string>)
    ensures |ws| >= 1
  {
    SplitSpaces(Trim(search))
  }

  predicate NameHasWord(d: Doc, kw: string) {
    Field(d, "name").Str? && HasWord(Field(d, "name").s, kw)
  }

  /**
   * The selection the route intends: exact category and subcategory when
   * given, and, when a search is given, every keyword in the name as a whole
   * word or the sku equal to the trimmed term.
   */
  predicate Selected(search: Option<string>, category: Option<string>, subcategory: Option<string>, d: Doc) {
    && (IsSet(category) ==> Field(d, "category") == Str(category.value))
    && (IsSet(subcategory) ==> Field(d, "subcategory") == Str(subcategory.value))
    && (IsSet(search) ==>
          (forall kw :: kw in Keywords(search.value) ==> NameHasWord(d, kw))
          || Field(d, "sku") == Str(Trim(search.value)))
  }

  // ---------------------------------------------------------------------------
  // The builder
  // ---------------------------------------------------------------------------

  /** Condition `k` of `names` looks for keyword `k`, one condition per keyword. */
  predicate LooksFor(names: seq<NameCondition>, keywords: seq<string>) {
    |names| == |keywords|
    && forall k :: 0 <= k < |names| ==> PatternKeyword(names[k].pattern) == Some(keywords[k])
  }

  /** `keywords.map(word => ({ name: { $regex: ..., $options: 'i' } }))`. */
  function NameConditions(keywords: seq<string>): (cs: seq<NameCondition>)
    ensures LooksFor(cs, keywords)
  {
    if keywords == [] then []
    else
      PatternOfEscape(keywords[0]);
      [NameRegex(BoundaryPattern(Escape(keywords[0])))] + NameConditions(keywords[1..])
  }

  lemma PatternOfEscape(w: string)
    ensures PatternKeyword(BoundaryPattern(Escape(w))) == Some(w)
  {
    var p := BoundaryPattern(Escape(w));
    assert p[..|PatternHead|] == PatternHead;
    assert p[|p| - |PatternTail|..] == PatternTail;
    assert p[|PatternHead|..|p| - |PatternTail|] == Escape(w);
  }

  /**
   * The clause a search adds: `{ $or: [ { $and: nameConditions }, { sku: searchTerm } ] }`,
   * one name condition per keyword of the trimmed term, in order.
   */
  function TextClause(search: string): (c: Clause)
    ensures c.TextMatch? && c.sku == Trim(search)
    ensures LooksFor(c.names, Keywords(search))
  {
    var term := Trim(search);
    TextMatch(NameConditions(SplitSpaces(term)), term)
  }

  /** The filters `unshift` puts at the front of `$and`: subcategory first, then category. */
  function FrontFilters(category: Option<string>, subcategory: Option<string>): seq<Clause> {
    (if IsSet(subcategory) then [SubcategoryIs(subcategory.value)] else [])
    + (if IsSet(category) then [CategoryIs(category.value)] else [])
  }

  /**
   * Builds the query of `GET /api/products` the way the handler does: a base
   * object with the category filters, then, for a search, an `$and` holding
   * the text clause, from which the top-level filters are deleted and put back
   * at the front of `$and`.
   */
  method BuildQuery(search: Option<string>, category: Option<string>, subcategory: Option<string>)
    returns (q: QueryDoc)
    ensures forall d :: QueryHolds(q, d) <==> Selected(search, category, subcategory, d)
    ensures IsSet(search) ==>
      q.and.Some? && |q.and.value| >= 1 && q.and.value[|q.and.value| - 1].TextMatch?
      && |q.and.value[|q.and.value| - 1].names| == |Keywords(search.value)|
  {
    q := QueryDoc(if IsSet(category) then category else None,
                  if IsSet(subcategory) then subcategory else None,
                  None);
    if IsSet(search) {
      q := WithSearch(q, search.value, category, subcategory);
    } else {
      PlainQueryMeaning(category, subcategory, q);
    }
  }

  /**
   * The search branch of the builder: the filters move from the top level into
   * the `$and` list, in front of the text clause.
   */
  method WithSearch(base: QueryDoc, search: string, category: Option<string>, subcategory: Option<string>)
    returns (q: QueryDoc)
    requires IsSet(Some(search)) && base.and.None?
    ensures forall d :: QueryHolds(q, d) <==> Selected(Some(search), category, subcategory, d)
    ensures q.and.Some? && |q.and.value| >= 1 && q.and.value[|q.and.value| - 1].TextMatch?
      && |q.and.value[|q.and.value| - 1].names| == |Keywords(search)|
  {
    var text := TextClause(search);
    q := base.(and := Some(base.and.GetOr([]) + [text]));
    q := q.(category := None, subcategory := None);
    if IsSet(category) {
      q := q.(and := Some([CategoryIs(category.value)] + q.and.value));
    }
    if IsSet(subcategory) {
      q := q.(and := Some([SubcategoryIs(subcategory.value)] + q.and.value));
    }
    assert q.and.value == FrontFilters(category, subcategory) + [text];
    SearchQueryMeaning(search, category, subcategory, text.names, q);
  }

  /** Without a search, the query is the category filters at the top level. */
  lemma PlainQueryMeaning(category: Option<string>, subcategory: Option<string>, q: QueryDoc)
    requires q.category == (if IsSet(category) then category else None)
    requires q.subcategory == (if IsSet(subcategory) then subcategory else None)
    requires q.and.None?
    ensures forall d :: QueryHolds(q, d) <==> Selected(None, category, subcategory, d)
  {
  }

  /** What the query of a search selects: the front filters and the text clause. */
  lemma SearchQueryMeaning(search: string, category: Option<string>, subcategory: Option<string>,
                           names: seq<NameCondition>, q: QueryDoc)
    requires IsSet(Some(search))
    requires LooksFor(names, Keywords(search))
    requires q.category.None? && q.subcategory.None?
    requires q.and == Some(FrontFilters(category, subcategory) + [TextMatch(names, Trim(search))])
    ensures forall d :: QueryHolds(q, d) <==> Selected(Some(search), category, subcategory, d)
  {
    var text := TextMatch(names, Trim(search));
    var cs := FrontFilters(category, subcategory) + [text];
    TextClauseMeaning(names, Keywords(search), Trim(search));
    forall d
      ensures QueryHolds(q, d) <==> Selected(Some(search), category, subcategory, d)
    {
      assert cs[|cs| - 1] == text;
      if IsSet(subcategory) {
        assert cs[0] == SubcategoryIs(subcategory.value);
      }
      if IsSet(category) {
        assert cs[|cs| - 2] == CategoryIs(category.value);
      }
    }
  }

  /** The text clause holds exactly when every keyword is a word of the name or the sku is the term. */
  lemma TextClauseMeaning(names: seq<NameCondition>, keywords: seq<string>, term: string)
    requires LooksFor(names, keywords)
    ensures forall d :: ClauseHolds(d, TextMatch(names, term)) <==>
      (forall kw :: kw in keywords ==> NameHasWord(d, kw)) || Field(d, "sku") == Str(term)
  {
    forall d
      ensures ClauseHolds(d, TextMatch(names, term)) <==>
        (forall kw :: kw in keywords ==> NameHasWord(d, kw)) || Field(d, "sku") == Str(term)
    {
      forall k | 0 <= k < |names|
        ensures NameConditionHolds(d, names[k]) <==> NameHasWord(d, keywords[k])
      {
      }
    }
  }

  /**
   * Moving the category and subcategory filters from the top level into the
   * front of `$and` does not change which products the query selects.
   */
  lemma HoistFilters(category: Option<string>, subcategory: Option<string>, text: Clause, d: Doc)
    ensures QueryHolds(QueryDoc(category, subcategory, Some([text])), d)
        <==> QueryHolds(QueryDoc(None, None, Some(
                (if subcategory.Some? then [SubcategoryIs(subcategory.value)] else [])
              + (if category.Some? then [CategoryIs(category.value)] else [])
              + [text])), d)
  {
    var cs := (if subcategory.Some? then [SubcategoryIs(subcategory.value)] else [])
            + (if category.Some? then [CategoryIs(category.value)] else []) + [text];
    assert cs[|cs| - 1] == text;
    if subcategory.Some? {
      assert cs[0] == SubcategoryIs(subcategory.value);
    }
    if category.Some? {
      assert cs[|cs| - 2] == CategoryIs(category.value);
    }
  }

  // ---------------------------------------------------------------------------
  // Consequences
  // ---------------------------------------------------------------------------

  /** The keywords of "a b" are exactly `a` and `b`. */
  lemma {:induction false} TwoKeywords(a: string, b: string)
    requires a != [] && NoSpace(a) && b != [] && NoSpace(b)
    ensures Trim(a + " " + b) == a + " " + b
    ensures Keywords(a + " " + b) == [a, b]
  {
    var s := a + " " + b;
    assert JoinWords([a, b]) == s by {
      assert [a, b][1..] == [b];
    }
    assert IsTrimmed(s) by {
      assert s[0] == a[0];
      assert s[|s| - 1] == b[|b| - 1];
    }
    TrimOfTrimmed(s);
    SplitJoinWords([a, b]);
  }

  /** `Selected` for a search whose keyword list is known. */
  lemma SelectedByKeywords(search: string, ws: seq<string>, category: Option<string>, subcategory: Option<string>, d: Doc)
    requires IsSet(Some(search)) && Keywords(search) == ws
    ensures Selected(Some(search), category, subcategory, d) <==>
      && (IsSet(category) ==> Field(d, "category") == Str(category.value))
      && (IsSet(subcategory) ==> Field(d, "subcategory") == Str(subcategory.value))
      && ((forall kw :: kw in ws ==> NameHasWord(d, kw)) || Field(d, "sku") == Str(Trim(search)))
  {
  }

  /**
   * Keyword order is irrelevant: "a b" and "b a" select the same products
   * (apart from a product whose sku is literally one of the two terms).
   */
  lemma KeywordOrderIrrelevant(a: string, b: string, category: Option<string>, subcategory: Option<string>, d: Doc)
    requires a != [] && NoSpace(a) && b != [] && NoSpace(b)
    requires Field(d, "sku") != Str(a + " " + b) && Field(d, "sku") != Str(b + " " + a)
    ensures Selected(Some(a + " " + b), category, subcategory, d) <==> Selected(Some(b + " " + a), category, subcategory, d)
  {
    TwoKeywords(a, b);
    TwoKeywords(b, a);
    var both := NameHasWord(d, a) && NameHasWord(d, b);
    SwappedPair(a + " " + b, [a, b], category, subcategory, d, both);
    SwappedPair(b + " " + a, [b, a], category, subcategory, d, both);
  }

  /** With two keywords and a sku that is not the term, selection asks for both keywords. */
  lemma SwappedPair(search: string, ws: seq<string>, category: Option<string>, subcategory: Option<string>, d: Doc, both: bool)
    requires IsSet(Some(search)) && Keywords(search) == ws && Trim(search) == search
    requires |ws| == 2 && both == (NameHasWord(d, ws[0]) && NameHasWord(d, ws[1]))
    requires Field(d, "sku") != Str(search)
    ensures Selected(Some(search), category, subcategory, d) <==>
      && (IsSet(category) ==> Field(d, "category") == Str(category.value))
      && (IsSet(subcategory) ==> Field(d, "subcategory") == Str(subcategory.value))
      && both
  {
    SelectedByKeywords(search, ws, category, subcategory, d);
    assert (forall kw :: kw in ws ==> NameHasWord(d, kw)) <==> both by {
      assert ws[0] in ws && ws[1] in ws;
      assert forall kw :: kw in ws ==> kw == ws[0] || kw == ws[1];
    }
  }

  /** A product whose sku is the trimmed term is selected whatever its name. */
  lemma SkuMatchSelects(search: string, category: Option<string>, subcategory: Option<string>, d: Doc)
    requires IsSet(Some(search))
    requires Field(d, "sku") == Str(Trim(search))
    requires IsSet(category) ==> Field(d, "category") == Str(category.value)
    requires IsSet(subcategory) ==> Field(d, "subcategory") == Str(subcategory.value)
    ensures Selected(Some(search), category, subcategory, d)
  {
  }

  /** "15" is not a word of "Tela156", but it is one of "Tela-15" and of "Tela 15 Pro". */
  lemma BoundaryExamples()
    ensures !HasWord("Tela156", "15")
    ensures HasWord("Tela-15", "15")
    ensures HasWord("Tela 15 Pro", "15")
    ensures HasWord("tela 15 pro", "TELA")
  {
    assert WordAt("Tela-15", "15", 5);
    assert WordAt("Tela 15 Pro", "15", 5);
    assert WordAt("tela 15 pro", "TELA", 0);
    var name := "Tela156";
    forall i | 0 <= i <= 5 ensures !WordAt(name, "15", i) {
    }
  }
}
