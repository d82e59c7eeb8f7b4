# Product catalogue: a Dafny model

This project models the core of a small product catalogue for a parts shop. It covers two sides:

- **The backend** (`backend/src/index.js`). This is an HTTP service over a document store. It:
  - lists products with a boundary-aware keyword search and paging;
  - creates, updates and deletes products, releasing images on an image host;
  - upserts a batch of products by sku;
  - counts products per category for the dashboard.
- **The browser scripts** of the public catalogue and the admin pages:
  - the public page's filters, selectors and showcase (`main.js`);
  - the admin product pager and form (`products.js`);
  - the category and attribute editors (`categories.js`, `attributes_manager.js`);
  - the login page's password rules (`auth.js`);
  - the session check every admin page runs (`guard.js`).

Modules follow the source files:

| module | models |
|---|---|
| `SearchQuery` | the query `GET /api/products` builds, and what it selects |
| `ProductStore` | the product routes, as a `Store` class over records keyed by id, with a log of image releases |
| `BulkUpsert` | the ordered `bulkWrite` of sku upserts |
| `CatalogView` | `main.js`; the page state is the `Catalog` class |
| `AdminProducts` | `products.js` |
| `CategoryEditor` | `categories.js`; the page state is the `Editor` class |
| `AttributeEditor` | `attributes_manager.js`; the page state is the `Editor` class |
| `TagList` | the duplicate-free tag lists both editors share |
| `LoginPage` | `auth.js` |
| `SessionGuard` | `guard.js` |

Helper modules hold the shared definitions:
- `Wrappers`: `Option` and `Result`.
- `Documents`: JSON values and records.
- `Text`: JavaScript's `trim`, `split(/\s+/)`, `toLowerCase`, `parseInt` and `split("/").pop()`.
- `Paging`: `Math.ceil`, `slice`, pages.
- `Selection`: what `filter` promises — the passing elements, every copy, in order.

The environment is replaced by parameters or left out:
- The clock is a parameter `now`.
- Browser storage is a `map<string, string>`.
- JSON parsing and `parseFloat` are function parameters.
- An upload is a value carrying the image host's path and file name.
- A handler that throws leaves its state unchanged. The model states this as an `Err` or `None` result, or as an unchanged field.

The model keeps these behaviours of the code:
- **No backend delete guards.** The backend's category routes carry no guard against deleting a category or removing a subcategory that products still use (`backend/src/index.js:278-281`). The only guard is in the category editor page.
- **Deleting a missing product.** `DELETE /api/products/:id` answers 204 for an id that does not exist (`backend/src/index.js:224-231`). The model's `Store.Delete` leaves the records unchanged and logs only the deletion call.
- **Whitespace-only search.** A search that is only white space is not treated as empty. The term trims to `""`, which gives one empty keyword (`backend/src/index.js:122-129`). `SearchQuery.Selected` states the result: a name matches when it has a word boundary with nothing between, or the sku is `""`.

## Model

| member | source | states |
|---|---|---|
| `SearchQuery.Escape` | backend/src/index.js:126 | The escaped keyword, read as a regular expression, denotes the keyword itself, character for character, so every metacharacter is matched literally. |
| `SearchQuery.EscapePlain` | backend/src/index.js:126 | A keyword without metacharacters is left unchanged. |
| `SearchQuery.HasWordFrom` | backend/src/index.js:127 | The scan from an offset is true exactly when some later offset holds the keyword as a whole word, ignoring case. |
| `SearchQuery.HasWord` | backend/src/index.js:127 | The keyword occurs case-insensitively with start-of-name, end-of-name, white space, `/` or `-` on each side. |
| `SearchQuery.BoundaryExamples` | backend/src/index.js:127 | "15" is not a word of "Tela156", but it is one of "Tela-15" and of "Tela 15 Pro". Matching ignores case. |
| `SearchQuery.NameConditions` | backend/src/index.js:125-129 | One name condition per keyword, in order, each looking for exactly that keyword. |
| `SearchQuery.PatternOfEscape` | backend/src/index.js:126-127 | The boundary pattern built from an escaped keyword looks for that keyword. |
| `SearchQuery.TextClause` | backend/src/index.js:122-138 | The search clause has one name condition per keyword of the trimmed term, and the trimmed term as its sku alternative. |
| `SearchQuery.BuildQuery` | backend/src/index.js:115-143 | The query holds for a record exactly when the record is selected: category and subcategory match when given and, for a search, every keyword is a word of the name or the sku equals the trimmed term. It also states the exact `$and` list. |
| `SearchQuery.WithSearch` | backend/src/index.js:122-143 | With a search, the filters move into the `$and` list ahead of the text clause, and the resulting query holds exactly for the selected records; the last clause is the text clause with one name condition per keyword. |
| `SearchQuery.PlainQueryMeaning` | backend/src/index.js:117-120 | Without a search, the top-level filters select exactly the records of that category and subcategory. |
| `SearchQuery.SearchQueryMeaning` | backend/src/index.js:130-142 | The hoisted filters followed by the text clause select exactly the intended records. |
| `SearchQuery.TextClauseMeaning` | backend/src/index.js:133-136 | The `$or` of "all name conditions" and "sku equals term" holds exactly when every keyword is a word of the name or the sku is the term. |
| `SearchQuery.HoistFilters` | backend/src/index.js:139-142 | Deleting the top-level category and subcategory and pushing them to the front of `$and` does not change which records match. |
| `SearchQuery.TwoKeywords` | backend/src/index.js:123-124 | A term of two space-separated words trims to itself and splits into exactly those two keywords. |
| `SearchQuery.SelectedByKeywords` | backend/src/index.js:122-138 | Selection for a search, stated over its list of keywords. |
| `SearchQuery.KeywordOrderIrrelevant` | backend/src/index.js:124-134 | "a b" and "b a" select the same records, except a record whose sku is literally one of the two terms. |
| `SearchQuery.SwappedPair` | backend/src/index.js:124-134 | With two keywords and a sku different from the term, a record is selected exactly when both keywords are words of its name. |
| `SearchQuery.SkuMatchSelects` | backend/src/index.js:135 | A record whose sku equals the trimmed term is selected whatever its name. |
| `Text.Trim` | backend/src/index.js:123 | `trim` removes exactly the leading and trailing white space. |
| `Text.SplitSpaces` | backend/src/index.js:124 | `split(/\s+/)` gives at least one piece, and no piece holds white space. |
| `Text.SplitSpacesSplitsAs` | backend/src/index.js:124 | The input is its pieces joined by the non-empty white-space runs between them. Inner pieces are non-empty, and the first (last) piece is empty exactly when the input starts (ends) with white space. |
| `Text.SplitsAsUnique` | backend/src/index.js:124 | Any way of cutting the input into such pieces and runs gives the split's pieces. So the pieces are exactly the maximal runs of non-white-space, in order. |
| `Text.SplitJoinWords` | backend/src/index.js:124 | Splitting words joined by single spaces gives the words back. |
| `Text.SplitTrimmedHasNoEmptyWord` | backend/src/index.js:123-124 | A trimmed, non-empty term splits into non-empty keywords. |
| `Text.ParseIntDecimalString` | backend/src/index.js:178 | `parseInt` of the decimal text of an integer gives the integer back. |
| `Text.LowerStr` | frontend/src/js/main.js:71 | `toLowerCase` keeps the length and lowers A–Z only. |
| `Text.LastSegment` | frontend/src/js/guard.js:21 | `split("/").pop()` is the suffix after the last `/`, and it holds no `/`. |
| `Paging.CeilDiv` | backend/src/index.js:150 | `Math.ceil(n / size)` is the least page count whose pages hold `n` items. It is 0 exactly when `n` is 0. |
| `Paging.Window` | backend/src/index.js:146 | `skip` then `limit` keeps the items from position `skip`, at most `limit` of them, in order. |
| `Paging.FirstPagesArePrefix` | frontend/src/js/main.js:113 | The first `n` pages laid end to end are the first `n * size` items. |
| `Paging.PagesPartition` | backend/src/index.js:146-150 | Pages 1 to `ceil(total / size)` hold every item exactly once, in order. |
| `Paging.PageBounds` | frontend/src/js/main.js:113-115 | A page holds at most `size` items, and a page past the last one is empty. |
| `ProductStore.SelectedIds` | backend/src/index.js:146 | The ids of selected records, all selected and strictly decreasing: largest id stands for newest. |
| `ProductStore.SelectedIdsComplete` | backend/src/index.js:146-147 | No selected record is missing from the listing's ids. |
| `ProductStore.QueryIdsAreSelected` | backend/src/index.js:146 | Filtering by a query that holds exactly for the selected records gives the selected ids. |
| `ProductStore.DocsAt` | backend/src/index.js:146 | The records at the listed ids, in the same order. |
| `ProductStore.ListingJson` | backend/src/index.js:150 | The response body is an object whose `products` field is an array with one element per listed record. |
| `ProductStore.ListingFrom` | backend/src/index.js:145-150 | The total is the number of matches. The page holds at most `limit` records. `pages` is `ceil(total / limit)`, or `null` when the limit is 0. |
| `ProductStore.ListingIsPage` | backend/src/index.js:116-146 | The listed records are page `page` of the matches, `limit` to a page. |
| `ProductStore.ListingUnlimited` | backend/src/index.js:146 | With limit 0 every match is listed. |
| `ProductStore.ListingOf` | backend/src/index.js:113-150 | Every listed record is selected by the search and the category filters. |
| `ProductStore.ParsedOr` | backend/src/index.js:161-170 | A falsy field gives the fallback. A non-empty string is parsed, with the fallback when parsing fails. Any other value is kept. |
| `ProductStore.ComputedFields` | backend/src/index.js:172-185 | The computed fields are exactly price, stock, attributes, hasVariations, variations, image and imagePublicId. |
| `ProductStore.NewProduct` | backend/src/index.js:172-185 | The saved record's stock is `parseInt` or 0, and its flag is `'true'` or `true`. Variations and attributes are parsed with their fallbacks. Image and public id come from the upload, or are `null` without one. |
| `ProductStore.NewProductCopies` | backend/src/index.js:173-176 | sku, name, category and subcategory are present exactly when the body has them, with the body's values. |
| `ProductStore.StockOfDecimal` | backend/src/index.js:178 | A stock sent as the decimal text of a number is stored as that number. |
| `ProductStore.StockOfText` | backend/src/index.js:178 | Text that does not parse as an integer is stored as stock 0. |
| `ProductStore.UpdateData` | backend/src/index.js:202-207 | The update holds every field of the body, plus price, stock and the flag. Price is `parseFloat` or 0, stock is `parseInt` or 0, and the flag is true exactly for `'true'` or `true`. Other fields are as the body sent them. |
| `ProductStore.ParsedField` | backend/src/index.js:199-200 | Fails exactly when the field is a non-empty string that does not parse. Otherwise the field is the parsed text, or the value as sent when it is not non-empty text, and no other field changes. |
| `ProductStore.Changes` | backend/src/index.js:198-216 | Fails exactly when variations or attributes does not parse. Otherwise it covers the body's fields and the coerced ones, plus the new image fields when a file came. |
| `ProductStore.ChangesKeys` | backend/src/index.js:198-216 | An update writes the body's fields, price, stock and the flag, plus the image fields when a file came. It writes the new image's link and id, and every other field as the body sent it. |
| `ProductStore.ChangesParseJson` | backend/src/index.js:199-200 | An update writes `variations` and `attributes` read as JSON: non-empty text becomes its parsed value, and anything else is kept. |
| `ProductStore.ChangesCoerce` | backend/src/index.js:202-207 | An update writes price as `parseFloat` or 0, stock as `parseInt` or 0, and the flag as `'true'` or `true`. |
| `ProductStore.ReleaseImage` | backend/src/index.js:89-94 | The image host is called once, with the public id, exactly when that id is truthy. Otherwise it is not called. |
| `ProductStore.Store.constructor` | backend/src/index.js:72 | An empty store with an empty log. |
| `ProductStore.Store.List` | backend/src/index.js:113-154 | A negative skip is answered with 500. Otherwise the answer is the listing of the selected records for the page and limit. |
| `ProductStore.Store.Create` | backend/src/index.js:157-193 | The new record is saved under a fresh id, and no other record changes. |
| `ProductStore.Store.Update` | backend/src/index.js:196-221 | Answers 500 with nothing changed when a JSON field does not parse. Releases the old image before the write when a file came. An unknown id leaves the records unchanged and answers `null`. Otherwise the record is overlaid with the changes and returned. |
| `ProductStore.Store.Delete` | backend/src/index.js:224-231 | The image is released, if the record has one, before the record is deleted. Only that record goes. |
| `ProductStore.Store.Batch` | backend/src/index.js:283-299 | 400 when `products` is not an array, 500 when an item is not an object. Otherwise the records become the ordered batch of upserts. |
| `ProductStore.Store.Stats` | backend/src/index.js:243-253 | The total record count, and for each category name the number of records in it. |
| `ProductStore.Fields` | backend/src/index.js:287-293 | The batch items as documents, one per item, in order. |
| `BulkUpsert.TargetSpec` | backend/src/index.js:289-291 | The filter `{ sku }` reaches a record holding that sku, chosen here as the smallest id (the store does not promise which one). It reaches none only when no record holds it. |
| `BulkUpsert.TargetFromSpec` | backend/src/index.js:289 | The scan finds the smallest id holding the sku. |
| `BulkUpsert.Summary` | backend/src/index.js:294 | Every operation either matches or inserts, and modified records are among the matched ones. |
| `BulkUpsert.BatchOverlay` | backend/src/index.js:287-294 | After an ordered batch, each sku's target holds its previous fields overlaid with every item for that sku, in order. Every other record is untouched. |
| `BulkUpsert.BatchUpsertsEverySku` | backend/src/index.js:287-294 | After a batch every item's sku has a record, and every earlier record is still there with its sku. |
| `BulkUpsert.BatchSetsFields` | backend/src/index.js:290 | `$set` writes the items' fields over the target, the later item winning. Records no item reaches are unchanged. |
| `BulkUpsert.MergeLastWins` | backend/src/index.js:290 | Every field of the last item for a sku is that item's value. |
| `BulkUpsert.BatchIdempotent` | backend/src/index.js:283-294 | Running the same batch twice leaves the records as one run did. |
| `BulkUpsert.SecondRunInsertsNothing` | backend/src/index.js:283-294 | A second run of the same batch inserts no record. |
| `BulkUpsert.NothingInsertedWhenPresent` | backend/src/index.js:291 | When every sku already has a record, the batch inserts nothing. |
| `CatalogView.Shown` | frontend/src/js/main.js:75-84 | A product is on screen exactly when it passes the search, category, subcategory and every attribute filter. |
| `CatalogView.ShownInOrder` | frontend/src/js/main.js:75-84 | The products on screen are exactly the passing ones, every copy, in catalogue order (an increasing map of positions that misses none). |
| `CatalogView.FiltersCompose` | frontend/src/js/main.js:75-84 | The first `filter` followed by one `filter` per attribute key gives exactly the one-pass filter, in catalogue order. |
| `CatalogView.KeepStep` | frontend/src/js/main.js:82-84 | One more round of the attribute loop applies that key's filter. |
| `CatalogView.Catalog.Filtered` | frontend/src/js/main.js:71-84 | The loop's result is the products shown for the lower-cased search text. |
| `CatalogView.AttrFilterNarrows` | frontend/src/js/main.js:58-84 | Setting a new attribute key narrows the shown products to those carrying the value. Clearing it again gives back the old list. |
| `CatalogView.AttrsMatchExtend` | frontend/src/js/main.js:83 | Matching one more filter is matching the old ones and having the new key's value. |
| `CatalogView.OptionsKey` | frontend/src/js/main.js:121 | A selector is offered for a key exactly when some product has that attribute. |
| `CatalogView.OptionsValue` | frontend/src/js/main.js:121 | A key offers exactly the values some product gives it. |
| `CatalogView.OptionsMeaning` | frontend/src/js/main.js:119-128 | The selectors offer exactly the keys and values present in the filtered products. |
| `CatalogView.AttributeOptions` | frontend/src/js/main.js:120-121 | The nested loops compute exactly the value sets of the products' attributes. |
| `CatalogView.Distinct` | frontend/src/js/main.js:133 | `[...new Set(xs)]` holds the same elements, without duplicates. |
| `CatalogView.SubcategoriesIn` | frontend/src/js/main.js:133 | The subcategories of exactly the products in the category. |
| `CatalogView.Brands` | frontend/src/js/main.js:131-135 | The brand list holds exactly the subcategories of the loaded products in the active category, each once. |
| `CatalogView.Group` | frontend/src/js/main.js:96-104 | A product is in the group of a category (HOME) or subcategory (CATEGORY) exactly when it is listed and has that category or subcategory. |
| `CatalogView.GroupInOrder` | frontend/src/js/main.js:96-104 | A group is every product of that category or subcategory, each copy, in catalogue order. The showcase's first four are therefore the first four in that order. |
| `CatalogView.Showcase` | frontend/src/js/main.js:95-106 | Each section is named after a category or subcategory, and shows the first one to four products of its group. |
| `CatalogView.ShowcaseComplete` | frontend/src/js/main.js:96-97 | Every category or subcategory with products gets a section. |
| `CatalogView.FindCategory` | frontend/src/js/main.js:102 | `find` returns the first category with the active name (every earlier one has another name), or none when no category has it. |
| `CatalogView.Names` | frontend/src/js/main.js:95 | The category names, in order. |
| `CatalogView.ScreenFor` | frontend/src/js/main.js:91-116 | The empty notice only when nothing passes. The grid is page `currentPage` of 20, with `ceil(n / 20)` pages. A showcase's sections hold one to four passing products. |
| `CatalogView.Catalog.constructor` | frontend/src/js/main.js:1-7 | HOME view, no filters, page 1, an empty search box. |
| `CatalogView.Catalog.Load` | frontend/src/js/main.js:24-25 | The categories, and the response's `products` or none. |
| `CatalogView.Catalog.ChangeView` | frontend/src/js/main.js:43-49 | Sets the view, category and subcategory. Back to page 1. HOME clears the attribute filters. |
| `CatalogView.Catalog.HandleSubFilter` | frontend/src/js/main.js:53-56 | The empty brand option goes to the whole category. Any other goes to that subcategory. |
| `CatalogView.Catalog.ResetAll` | frontend/src/js/main.js:31-35 | The search box is emptied. The page goes back to HOME with no category, subcategory or filters, on page 1. |
| `CatalogView.ShownAfterReset` | frontend/src/js/main.js:31-35 | With the box emptied and no filters, every product passes the filter of the next render. |
| `CatalogView.Catalog.SetAttrFilter` | frontend/src/js/main.js:58-63 | The empty choice removes the key, any other value sets it, and the page goes back to 1. |
| `CatalogView.Catalog.HandleSearch` | frontend/src/js/main.js:51 | The box holds the typed text, and the search starts from page 1. |
| `CatalogView.Catalog.GoToPage` | frontend/src/js/main.js:184 | The page becomes the chosen one. |
| `CatalogView.Catalog.Render` | frontend/src/js/main.js:65-117 | The search is the box's text, lower-cased. The screen is for the shown products, with the selectors for them, and the brand list exactly when a category is active. |
| `AdminProducts.GetPages` | frontend/src/js/products.js:466-477 | A page number is listed exactly when it is the first, the last, or within 2 of the current page. Numbers increase. Consecutive numbers are adjacent pages. Each `...` stands for at least one skipped page, and never two in a row. The list starts at 1 and ends at the total. |
| `AdminProducts.PushNumber` | frontend/src/js/products.js:470-471 | Pushing a listed page keeps the pager's shape. |
| `AdminProducts.PushEllipsis` | frontend/src/js/products.js:472-473 | Pushing `...` after a number keeps the pager's shape. |
| `AdminProducts.SkipAgain` | frontend/src/js/products.js:472 | A further skipped page after `...` pushes nothing and keeps the shape. |
| `AdminProducts.RangeIsPage` | frontend/src/js/products.js:463-464 | "Showing a-b" names exactly the positions of the current page's items. |
| `AdminProducts.RangePastEnd` | frontend/src/js/products.js:463-464 | A page past the last one shows an empty range. |
| `AdminProducts.PaginationControls` | frontend/src/js/products.js:459-497 | The range, the disabled previous button on page 1, the disabled next button from the last page on, and the page list as `GetPages` states it. |
| `AdminProducts.VariationOf` | frontend/src/js/products.js:251-257 | A row's stock is `parseInt` or 0. Type, value and sku are copied. |
| `AdminProducts.Variations` | frontend/src/js/products.js:251 | One variation per row, in order. |
| `AdminProducts.TotalStockOfRows` | frontend/src/js/products.js:260 | The reduced total is the sum of the rows' parsed stocks. |
| `AdminProducts.AttrsOfMeaning` | frontend/src/js/products.js:268-271 | The attribute map holds exactly the names of fields with a value, each with a non-empty value some field of that name gave. |
| `AdminProducts.CollectAttrs` | frontend/src/js/products.js:268-271 | The loop builds exactly that attribute map. |
| `AdminProducts.SaveProduct` | frontend/src/js/products.js:228-278 | Refuses exactly when name or category is empty. Otherwise it states the body's fields: variations and the total stock, or the typed stock and no variations. It also states the POST or PUT target. |
| `AdminProducts.SubmittedStockIsTotal` | frontend/src/js/products.js:260-261 | With variations, the stock the backend stores for the body is the sum of the rows' stocks, and the stored flag is true. |
| `AdminProducts.ReadListing` | frontend/src/js/products.js:50-58 | Takes `products`, `pages` and `total` when `products` is truthy. Otherwise an array response is one page of its own length, and anything else is an empty list. |
| `AdminProducts.ReadsBackendListing` | frontend/src/js/products.js:50-53 | On this backend's listing body the page takes the records, page count and total from the body. |
| `TagList.AddTag` | frontend/src/js/categories.js:141-150 | The trimmed input is appended when it is non-empty and not listed. The old list is a prefix, and duplicate-freedom is kept. |
| `TagList.RemoveTag` | frontend/src/js/categories.js:128 | A tag is kept exactly when it is listed and is not the removed one. Keeps duplicate-freedom. |
| `TagList.RemoveTagInOrder` | frontend/src/js/categories.js:128 | Drops every copy of the tag and keeps every other tag, each copy, in its order. |
| `TagList.RemoveAbsent` | frontend/src/js/attributes_manager.js:93 | Removing a tag that is not listed changes nothing. |
| `TagList.AddThenRemove` | frontend/src/js/categories.js:128-150 | Adding a new tag and then removing it gives the list back. |
| `TagList.RemoveAppend` | frontend/src/js/categories.js:128-145 | Removing a tag just appended gives the list back. |
| `CategoryEditor.CountRefs` | frontend/src/js/categories.js:78-103 | The count is positive exactly when some product is in the category (and subcategory). |
| `CategoryEditor.References` | frontend/src/js/categories.js:78-103 | `filter` throws exactly when the loaded products are not an array. Otherwise it counts the referring products. |
| `CategoryEditor.GuardsThrowAsWritten` | frontend/src/js/categories.js:21 | Kept whole, the listing body is not an array, so every reference count throws, whatever the listing holds. |
| `CategoryEditor.LoadedProducts` | frontend/src/js/categories.js:21 | Reading `.products` always gives an array, and on a listing body it is the listing's records. |
| `CategoryEditor.GuardsCountListing` | frontend/src/js/categories.js:21-103 | Read through `.products`, the counts never throw and are positive exactly when a listed record refers to the category. |
| `CategoryEditor.GuardsCountEveryRecord` | frontend/src/js/categories.js:15-28 | Counting over a listing with no limit, the count is positive exactly when some stored product refers to the category. |
| `CategoryEditor.CategoryJson` | backend/src/index.js:269 | A listed category carries `_id` and no `id` field. |
| `CategoryEditor.IdAsWritten` | frontend/src/js/categories.js:41 | `cat.id` is the object's text `id`, or `undefined` when it has none. |
| `CategoryEditor.IdOf` | frontend/src/js/attributes_manager.js:111 | `_id` is read as the attribute page reads it. |
| `CategoryEditor.ConfirmDeleteAsWritten` | frontend/src/js/categories.js:41-137 | Deleting a listed category as written deletes nothing, even when no product uses it. |
| `CategoryEditor.ConfirmDelete` | frontend/src/js/categories.js:102-137 | Deleting by `_id` deletes the category exactly when its id is non-empty and no product uses it. |
| `CategoryEditor.SaveEditAsWritten` | frontend/src/js/categories.js:152-178 | Saving an edited category as written always creates a new one. |
| `CategoryEditor.SaveEdit` | frontend/src/js/categories.js:152-178 | Saving an edited category by `_id` replaces that category. |
| `CategoryEditor.Editor.constructor` | frontend/src/js/categories.js:1-5 | No tags, nothing pending, no products. |
| `CategoryEditor.Editor.LoadProducts` | frontend/src/js/categories.js:13-21 | The corrected read: the products kept are the response's `products` array, the listing's records. The code as written keeps the whole body, which `CategoryEditor.LoadedAsWritten` models. |
| `CategoryEditor.Editor.AskRemoveSub` | frontend/src/js/categories.js:76-89 | Throws when the products are not an array. Refuses with the count when products use the subcategory. Otherwise arms the removal. |
| `CategoryEditor.Editor.AskDeleteCat` | frontend/src/js/categories.js:102-113 | Throws, refuses with the count, or arms the deletion, as for subcategories. |
| `CategoryEditor.Editor.CloseConfirm` | frontend/src/js/categories.js:115-137 | On yes, a pending deletion is sent; otherwise a pending removal drops the tag. Both markers are cleared either way. |
| `CategoryEditor.Editor.AddSubToList` | frontend/src/js/categories.js:141-150 | The tags become `AddTag` of the input. |
| `CategoryEditor.Editor.SaveFullCategory` | frontend/src/js/categories.js:152-161 | Refuses a blank name or an empty tag list. Otherwise the request carries the trimmed name and the tags, and it creates the category or replaces the one being edited. |
| `CategoryEditor.Editor.EditCategory` | frontend/src/js/categories.js:176-189 | Edits the given category, starting from a copy of its tags. |
| `CategoryEditor.Editor.CancelCatEdit` | frontend/src/js/categories.js:194-196 | Nothing edited, no tags. |
| `AttributeEditor.Editor.constructor` | frontend/src/js/attributes_manager.js:1-3 | No options, nothing edited or pending. |
| `AttributeEditor.Editor.ToggleOptionInput` | frontend/src/js/attributes_manager.js:50-61 | A free-text type empties the options; a selection keeps them. |
| `AttributeEditor.Editor.AddOptionToList` | frontend/src/js/attributes_manager.js:80-90 | The options become `AddTag` of the input. |
| `AttributeEditor.Editor.RemoveOption` | frontend/src/js/attributes_manager.js:92-95 | Every copy of the option goes. |
| `AttributeEditor.Editor.EditAttribute` | frontend/src/js/attributes_manager.js:109-127 | Edits the given attribute with a copy of its options, or none for free text. |
| `AttributeEditor.Editor.SaveFullAttribute` | frontend/src/js/attributes_manager.js:134-145 | Refuses exactly a missing category or name, or a selection without options. A free-text attribute is sent with no options. |
| `AttributeEditor.Editor.CloseAttrForm` | frontend/src/js/attributes_manager.js:27-47 | Nothing edited, no options. |
| `AttributeEditor.Editor.AskDelete` | frontend/src/js/attributes_manager.js:221-227 | The attribute becomes the pending deletion. |
| `AttributeEditor.Editor.CloseConfirm` | frontend/src/js/attributes_manager.js:229-242 | Yes with a pending id deletes it. The pending id is cleared either way. |
| `LoginPage.Scan` | frontend/src/js/auth.js:54-56 | A character-class test is true exactly when some character of the password is in the class. |
| `LoginPage.Utf16Length` | frontend/src/js/auth.js:53 | `length` counts one unit per character of the Basic Multilingual Plane and two for any other. It lies between the number of characters and twice that. |
| `LoginPage.Utf16LengthAppend` | frontend/src/js/auth.js:53 | The length of joined text is the sum of the lengths. |
| `LoginPage.Check` | frontend/src/js/auth.js:52-57 | Each criterion is checked as its predicate states. The length rule asks for at least 8 UTF-16 code units, as `val.length` counts them. |
| `LoginPage.AstralPasswordLength` | frontend/src/js/auth.js:53 | A password of six characters, two of them emoji, is eight code units long and meets the length rule. |
| `LoginPage.OnInput` | frontend/src/js/auth.js:60-85 | Each rule's mark is whether that rule holds. `allValid` is true exactly when all four hold. Success shows exactly when `allValid` holds and the password is non-empty. |
| `LoginPage.EveryCriterionListed` | frontend/src/js/auth.js:52-65 | The loop's key list covers all four rules. |
| `LoginPage.SuccessIffAllValid` | frontend/src/js/auth.js:79 | Since the length rule demands 8 code units, "all valid and non-empty" is the same as "all valid". |
| `LoginPage.RefusalText` | frontend/src/js/auth.js:127 | The server's message when it sends a non-empty one, else the default. |
| `LoginPage.LoginAsWritten` | frontend/src/js/auth.js:110-129 | An accepted login stores the literal `'autenticado'` as the token. A refused one leaves storage alone and shows the refusal text. |
| `LoginPage.Login` | backend/src/index.js:237-238 | The corrected login stores the token the server returned, and the login time as decimal milliseconds. |
| `SessionGuard.ExpiryBoundary` | frontend/src/js/guard.js:4-7 | A session stamped at `t` is expired exactly when `now > t + 28800000`, so exactly eight hours is not expired. |
| `SessionGuard.TokenShape` | frontend/src/js/guard.js:9 | Stored text passes the token check exactly when it contains a `.`. The placeholder `'autenticado'` and the empty text never pass. |
| `SessionGuard.Guard` | frontend/src/js/guard.js:11-15 | Storage is cleared and the user redirected exactly when the token is invalid or the session expired. Otherwise nothing changes. |
| `SessionGuard.GuardIdempotent` | frontend/src/js/guard.js:11-15 | Running the check again on its own result decides the same way and changes nothing. |
| `SessionGuard.LoginAsWrittenIsRefused` | frontend/src/js/guard.js:9 | Whatever the server answered, the storage a successful login leaves as written is refused and cleared. |
| `SessionGuard.LoginKeepsSession` | frontend/src/js/guard.js:4-15 | After the corrected login, the check refuses exactly when more than eight hours have passed. |
| `SessionGuard.PageName` | frontend/src/js/guard.js:21 | The page name is non-empty and holds no `/`. It is the path's last segment, or `dashboard.html` when that segment is empty. |
| `SessionGuard.ActiveLink` | frontend/src/js/guard.js:21-30 | On a page at `dir/name`, the link to `name` is highlighted. On a path ending in `/`, the dashboard link is highlighted. |

## Left out

- **Framework and I/O.** The model leaves out:
  - Express routing, CORS and body parsing;
  - authentication of the mutating routes (`verifyToken`), JWT signing and checking, and the credential comparison;
  - the database connection and the Mongoose schema's casting and defaults;
  - multer and the image host's storage (an upload is a value; a release is an event in the store's log);
  - every `fetch`, `Promise.all`, `setTimeout` and `window.location` call, and all markup and DOM work.
- **dashboard.js** only renders server data. It is not part of this model.
- **Category and attribute routes.** The backend's category and attribute routes pass bodies straight to the store (`backend/src/index.js:255-281`). They are left out. The editors' requests are modelled up to the body they send.
- **Floating point.** `parseFloat` and prices are a function parameter or not modelled. Variation prices and locale formatting are left out.
- **Text semantics.** Case folding covers A–Z only. `Number()` on stored text is modelled by `parseInt`. These agree on the decimal text the corrected login stores.
- **Edge inputs of the listing route.**
  - `ProductStore.SelectedIds`, `ProductStore.ListingIsPage`, `ProductStore.Store.List`: records that share a `createdAt` (one `bulkWrite`, or two creates in the same millisecond) are ordered by id here. The store leaves their order unspecified, and it may differ between the separate queries of two pages. So the partition of the matches into pages (`Paging.PagesPartition`) holds for the model's order, and the store does not promise it for tied records.
  - `ProductStore.Store.List`: a non-numeric `page` or `limit` (`NaN`) and a negative `limit` are not modelled. Both are naturals or integers here.
  - `ProductStore.StockOf` applies `parseInt` to text only, so `"1e3"` gives 1, as in JavaScript. For values that are not text, it does not model the `String(v)` conversion that `parseInt` applies first. So an integer of `1e21` or more is kept rather than read from `"1e+21"` as 1. A one-element array such as `[5]` gives 0 rather than 5. A fraction with an exponent form such as `1e-7` is truncated to 0 rather than read as 1. These values reach the handler only through a JSON body.
- **Partial bulk writes.** `ProductStore.Store.Batch`: a batch with a non-object item answers 500 with the records unchanged. A store that applied the operations before the failing one is not modelled.
- **Markup-only details.** The categories page's product count badges and the sorting of selector options in the catalogue page are markup and are left out.
- **Catalogue display details.**
  - `CatalogView.Catalog.GoToPage` requires a page of at least 1. The pager's previous button is disabled on page 1, so the page never receives 0.
  - Products with `null` fields are read with missing text as `""`.
  - Section titles are not modelled.
  - `CatalogView.Shown`, `CatalogView.AttributeOptions`, `CatalogView.OptionsValue`: attribute values are text here. The schema stores `attributes` as mixed data, so a bulk upsert can store a number or a boolean. Such a value is offered as the option text `"5"`, and the strict `===` at `frontend/src/js/main.js:83` then hides every product that offered it. Non-text attribute values are not modelled.
- **Ids.** A category's JSON is reduced to `_id`, `name` and `subcategories`. The consequence of the page reading `cat.id` is stated under Findings.
- **Store behaviour of the bulk upsert.**
  - `BulkUpsert.BatchIdempotent`: the product schema keeps timestamps (`backend/src/index.js:70`), so the store also writes `updatedAt` on every `$set`. A second run therefore rewrites that field of every matched record. The model has no timestamps, and its idempotence is about every other field.
  - `BulkUpsert.BatchSetsFields`: the store's strict schema drops item fields that the product schema does not declare. The model writes every field of an item.
  - `BulkUpsert.TargetSpec`: `updateOne` does not promise which of several records with the same sku it updates. The model picks the smallest id, and it does not claim that this is the oldest record.
- **Image release failures.** A failed release is logged by the handler and is not modelled, since the release is only an event in the log.

## Findings

| source | as written | input that shows it | evidently intended | confidence | as-written member | corrected member |
|---|---|---|---|---|---|---|
| frontend/src/js/categories.js:21 | The whole listing body (`{ products, total, pages, currentPage }`, backend/src/index.js:150) is kept as `allProducts`. The reference counts then call `filter` on an object, and the call throws. | Any response of `GET /api/products`, such as `{ products: [], total: 0, pages: 0, currentPage: 1 }`. After it, asking to remove a subcategory or delete a category throws, and neither guard ever arms. The same throw at line 28 aborts the listing of categories. | Fetch with `limit=0`, which the store reads as no limit (the catalogue page's `limit=9999` at frontend/src/js/main.js:22 still caps at 9999 records), keep the response's `products` array, and count over it. Reading `products` alone would still see only the 25 newest records, since the fetch at line 17 passes no `limit`. | not executed | `CategoryEditor.GuardsThrowAsWritten` | `CategoryEditor.GuardsCountEveryRecord` |
| frontend/src/js/auth.js:111 | An accepted login stores the literal `'autenticado'` as the token and never stores `login_time`. The session check refuses that literal and any token without a `.` (frontend/src/js/guard.js:9). | Any successful login, such as an answer `{ message: "Sucesso!", token: "h.p.s" }`. The next admin page finds `'autenticado'`, clears storage and returns to the login page. | Store the server's token (a signed token always contains `.`) and the login time, so the session lasts eight hours. | not executed | `SessionGuard.LoginAsWrittenIsRefused` | `SessionGuard.LoginKeepsSession` |
| frontend/src/js/categories.js:41 | The delete button passes `cat.id`. The categories come from `res.json(await Category.find())` (backend/src/index.js:269), which sends `_id` and no `id`, so the id is `undefined`. `closeConfirm` then takes the tag-removal branch or nothing (line 118). | Any listed category, such as `{ _id: "c1", name: "Telas", subcategories: ["A"] }` with no product in it. Confirming its deletion sends no request. | Pass the category's `_id`, as text, as the attribute page does with `attr._id` (frontend/src/js/attributes_manager.js:111). | not executed | `CategoryEditor.ConfirmDeleteAsWritten` | `CategoryEditor.ConfirmDelete` |
| frontend/src/js/categories.js:178 | `editingCatId` is `cat.id`, which is `undefined` for a listed category. `saveFullCategory` then chooses POST (lines 160-161) and creates a second category. | Editing `{ _id: "c1", name: "Telas", subcategories: ["A"] }` and saving it with the name "Telas". | Set `editingCatId` from `cat._id`, so that saving replaces the edited category with a PUT. | not executed | `CategoryEditor.SaveEditAsWritten` | `CategoryEditor.SaveEdit` |
