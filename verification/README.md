# Bicycle storefront: a Dafny model

This project models the logic of a Lightning Web Components bicycle storefront, in two generations.

- **The current storefront (`src/`)** has:
  - a catalogue page that filters by type, brand and price range, sorts on one of four keys, and paginates six bikes at a time;
  - a filter side panel;
  - a pagination bar;
  - product cards;
  - a product detail page with a per-colour image gallery and a zoom overlay;
  - a cart summary panel;
  - a cart store singleton. It keeps a Map of cart lines, validates adds, merges a repeated (product, colour) pair, refreshes images against a reloaded catalogue, and rehydrates from storage.
- **The older storefront (`bicycle-store/`)** runs the same filter and sort pipeline with other defaults. It has no pagination. It keeps the cart inline in the store component, with a tracked `cartTotal`. It also has an older cart store, product card and detail page.

How the model represents the system:

- Every component is a datatype of the state its handlers read and write.
- Every handler and getter is a pure function from the old state to the new one.
- An event a component raises is a datatype value returned to the caller.
- The cart store's "save to storage and notify every listener" is one `saved` flag on each mutation's result.
- A thrown error is `Failure`.
- Prices are integer cents. The price-range bounds are whole currency units, as the filter fields hold them (`parseInt` of the typed text, or the defaults 10000 and 5000), so the range test compares a price with 100 times each bound (`Pipeline.InPriceRange`).
- A missing string is the empty string, because both are falsy in JavaScript.
- Optional numbers and lists are `Option`.
- Release dates are yyyymmdd integers, which sort like the dates.
- `parseInt(s, 10)` is `Common.ParseInt`. It skips leading whitespace, reads an optional sign and decimal digits, and gives `None` for `NaN`.
- `Array.prototype.slice` is `Common.JsSlice`, including its negative-index rules.
- `[...new Set(xs)]` is `Common.Distinct`.
- `Array.prototype.sort` is a stable insertion sort (section 23.1.3.30 of ECMA-262 requires a stable sort).

| module | file | models |
|---|---|---|
| `Common` | common.dfy | JavaScript runtime pieces: `parseInt`, `x \|\| fallback`, number-to-string, `slice`, `Set` de-duplication, capitalisation, `join` |
| `Catalogue` | catalogue.dfy | the product record, colour/image resolution, `find`/`Map` lookups by id, stock text |
| `CartLines` | cart_lines.dfy | cart lines as an insertion-ordered Map (`set`, `delete`), sums over the lines, image refresh |
| `CartStore` | cart_store.dfy | src/modules/my/cartStore/cartStore.js |
| `LegacyCartStore` | legacy_cart_store.dfy | bicycle-store/src/modules/my/cartStore/cartStore.js |
| `Pipeline` | pipeline.dfy | the filter stages, the stable sort, the page slice, the active-filter record (both stores) |
| `StoreView` | store_view.dfy | src/modules/my/bikeStore/bikeStore.js |
| `Pagination` | pagination.dfy | src/modules/my/bikePagination/bikePagination.js |
| `ProductCard` | product_card.dfy | both bikeCard.js files |
| `ProductDetail` | product_detail.dfy | both bikeDetail.js files |
| `CartSummary` | cart_summary.dfy | src/modules/my/cartSummary/cartSummary.js |
| `FilterPanel` | filter_panel.dfy | src/modules/my/bikeFilters/bikeFilters.js and the older store's option lists |
| `LegacyStore` | legacy_store.dfy | bicycle-store/src/modules/my/bikeStore/bikeStore.js |

## Model

| member | source | states |
|---|---|---|
| Common.ParseIntRoundTrip | src/modules/my/bikePagination/bikePagination.js:28-33 | `parseInt` reads back every integer written in decimal, which is how page buttons and option labels carry their numbers |
| Common.ParseIntOr | src/modules/my/bikeFilters/bikeFilters.js:35-53 | `parseInt(s) \|\| d` is the parsed number unless it is `NaN` or 0, in which case it is `d`; with a non-zero `d` the result is never 0 |
| Common.JsSlice | src/modules/my/bikeStore/bikeStore.js:217-221 | `slice` with non-negative bounds gives the elements from the start up to the end, clamped to the list |
| Common.Distinct | src/modules/my/bikeFilters/bikeFilters.js:65-84 | the values of the list without repeats, and nothing else |
| Common.DistinctKeepsFirstOccurrenceOrder | src/modules/my/bikeFilters/bikeFilters.js:65-84 | de-duplicated values appear in the order of their first occurrence |
| Catalogue.ColorImage | src/modules/my/cartStore/cartStore.js:131-137 | the truthy colour entry (the first URL of a list) wins, else the product image, else the placeholder; the result is undefined exactly for an empty URL list |
| Catalogue.InitialColor | src/modules/my/bikeCard/bikeCard.js:14-17 | the first colour, or the empty string when there are none |
| Catalogue.ColorOptions | src/modules/my/bikeCard/bikeCard.js:76-82 | one option per colour, in order, capitalised, selected exactly when it is the selected colour |
| Catalogue.FindFirst | src/modules/my/bikeStore/bikeStore.js:253-255 | `find` by id: absent exactly when no product has the id, otherwise the first product with it |
| Catalogue.FindLast | src/modules/my/cartStore/cartStore.js:183-209 | the Map built from the catalogue yields the last product with an id; absent exactly when none has it |
| Catalogue.StockStatus | src/modules/my/bikeCard/bikeCard.js:84-86 | "In Stock" exactly when the bike is in stock, "Out of Stock" otherwise |
| Catalogue.IsOutOfStock | src/modules/my/bikeCard/bikeCard.js:98-100 | true exactly when the stock badge reads "Out of Stock" |
| Catalogue.StockClass | src/modules/my/bikeDetail/bikeDetail.js:177-187 | the available class exactly when in stock, the unavailable class exactly when out of stock |
| CartLines.Put | src/modules/my/cartStore/cartStore.js:35-49 | Map `set`: a new id appends at the end, an existing id is replaced where it stands, all other lines stay, ids stay unique |
| CartLines.PutMembers | src/modules/my/cartStore/cartStore.js:35-49 | after a Map `set` every line is an old line or the one just set |
| CartLines.PutKeepsTotals | src/modules/my/cartStore/cartStore.js:35-49 | setting a line whose total is its price times its quantity keeps every line total consistent |
| CartLines.Delete | src/modules/my/cartStore/cartStore.js:53-70 | Map `delete`: the id is gone, every other line stays in order |
| CartLines.DeleteKeepsInvariants | src/modules/my/cartStore/cartStore.js:53-70 | deleting keeps ids unique and line totals consistent, and with unique ids removes exactly one line |
| CartLines.SetQuantity | src/modules/my/cartStore/cartStore.js:53-70 | only the chosen line changes, and only its quantity and its recomputed total |
| CartLines.FindExisting | src/modules/my/cartStore/cartStore.js:121-129 | the first line with the same product and colour; absent exactly when none matches |
| CartLines.SumByUpdate | src/modules/my/cartStore/cartStore.js:88-99 | replacing one line changes a sum by exactly that line's difference |
| CartLines.SumByDelete | src/modules/my/cartStore/cartStore.js:88-99 | removing a line takes exactly its contribution off a sum |
| CartLines.TotalIsValue | src/modules/my/cartStore/cartStore.js:88-99 | with consistent line totals, the sum of the totals is the sum of price times quantity |
| CartLines.RefreshChangesIffSomeImageChanges | src/modules/my/cartStore/cartStore.js:183-209 | the refreshed lines differ from the old ones exactly when some image changed, and the ids stay |
| CartStore.GetState | src/modules/my/cartStore/cartStore.js:88-99 | the lines in order; in a valid cart the total is the sum of price times quantity; the count is at least the number of lines |
| CartStore.FindExistingItem | src/modules/my/cartStore/cartStore.js:121-129 | a line holding the product in that colour, absent exactly when there is none |
| CartStore.GetColorImage | src/modules/my/cartStore/cartStore.js:131-137 | the colour's URL (the first of a list), else a non-empty product image or placeholder |
| CartStore.UpdateQuantity | src/modules/my/cartStore/cartStore.js:53-70 | fails exactly on a negative quantity; 0 removes the id; a positive quantity sets that line only; saves exactly when the id is present; keeps the cart valid |
| CartStore.AddItem | src/modules/my/cartStore/cartStore.js:20-50 | rejects a falsy id or price and a non-positive quantity; merges into the existing line of the same product and colour, returning its id; otherwise appends a new line under the new id; keeps the cart valid |
| CartStore.RefreshImages | src/modules/my/cartStore/cartStore.js:183-209 | no-op for a non-array or empty catalogue; only images change, each to the colour image of the last catalogue product with the line's id; saves exactly when the cart changed |
| CartStore.LoadLines | src/modules/my/cartStore/cartStore.js:159-180 | the loaded Map has unique ids and consistent totals, holds exactly the ids of the entries that pass the check, and only recomputed copies of them |
| CartStore.LoadFromStorage | src/modules/my/cartStore/cartStore.js:159-180 | unreadable storage gives the empty cart; otherwise a valid cart of the accepted entries, every one of them present |
| CartStore.SaveLoadRoundTrip | src/modules/my/cartStore/cartStore.js:159-180 | saving a valid, loadable cart and loading it back gives the same cart and the same state |
| CartStore.AddFreshTotals | src/modules/my/cartStore/cartStore.js:35-49 | a fresh add raises the total by price times quantity and the count by the quantity |
| CartStore.UpdateTotals | src/modules/my/cartStore/cartStore.js:53-70 | a quantity change moves the total by price times the difference and the count by the difference |
| CartStore.RemoveTotals | src/modules/my/cartStore/cartStore.js:53-70 | removing a line takes its total and its quantity off the state |
| CartStore.AddTwiceMerges | src/modules/my/cartStore/cartStore.js:27-33 | adding the same product and colour twice leaves one line with both quantities under the first id |
| CartStore.FirstAddAppends | src/modules/my/cartStore/cartStore.js:27-49 | the first add of a product and colour appends its line at the end, where the product-and-colour lookup finds it |
| CartStore.AddMergesInto | src/modules/my/cartStore/cartStore.js:27-33 | an add that finds an existing line adds its quantity to that line in place and reports that line's id |
| LegacyCartStore.GetTotal | bicycle-store/src/modules/my/cartStore/cartStore.js:61-65 | zero for no lines; in a valid cart the sum of price times quantity |
| LegacyCartStore.GetCount | bicycle-store/src/modules/my/cartStore/cartStore.js:68-72 | zero for no lines; at least the number of lines when every quantity is positive |
| LegacyCartStore.CountAndTotalAdd | bicycle-store/src/modules/my/cartStore/cartStore.js:61-72 | the count and the total of two runs of lines laid end to end are the sums of their counts and totals |
| LegacyCartStore.CountAndTotalOfOneLine | bicycle-store/src/modules/my/cartStore/cartStore.js:61-72 | one line counts its quantity and totals its line total |
| LegacyCartStore.UpdateQuantityTotals | bicycle-store/src/modules/my/cartStore/cartStore.js:41-53 | setting a present line to a non-zero quantity moves the count by the change and the total by price times the change |
| LegacyCartStore.RemoveLineTotals | bicycle-store/src/modules/my/cartStore/cartStore.js:41-53 | setting a present line to 0 removes its id, its quantity from the count and its line total from the total |
| LegacyCartStore.UpdateQuantity | bicycle-store/src/modules/my/cartStore/cartStore.js:41-53 | with no negative check: an unknown id changes and saves nothing; 0 removes that line and keeps every other line as it was, adding none; anything else sets that line only; keeps the cart valid |
| LegacyCartStore.AddItem | bicycle-store/src/modules/my/cartStore/cartStore.js:11-38 | always saves; merges into the existing line of the same product and colour; otherwise sets a line under the timestamp, appended when the timestamp is new; keeps the cart valid |
| LegacyCartStore.RefreshImages | bicycle-store/src/modules/my/cartStore/cartStore.js:125-141 | only images change, each to the colour image of the first catalogue product with the id; saves exactly when some image changed |
| LegacyCartStore.LoadFromStorage | bicycle-store/src/modules/my/cartStore/cartStore.js:107-122 | unreadable storage gives the empty cart; otherwise exactly the stored ids are present and every loaded line is a stored entry with its total recomputed, without validation |
| LegacyCartStore.LoadKeepsLastEntry | bicycle-store/src/modules/my/cartStore/cartStore.js:111-117 | of the stored entries sharing a cart id, the last one is loaded (with its total recomputed) |
| LegacyCartStore.AddFreshTotals | bicycle-store/src/modules/my/cartStore/cartStore.js:22-36 | a fresh add raises the total and the count by the new line's contribution |
| LegacyCartStore.SameTimestampOverwrites | bicycle-store/src/modules/my/cartStore/cartStore.js:22-36 | two adds of different products in the same millisecond leave one new line, holding the second product |
| Pipeline.ApplyFilters | src/modules/my/bikeStore/bikeStore.js:193-215 | a bike is kept exactly when it is in the catalogue and matches type and brand and its price lies between the two bounds, both ends included, with the bounds in whole units and the price in cents |
| Pipeline.Select | src/modules/my/bikeStore/bikeStore.js:193-215 | the one-pass reference filter: membership is the match, and it is a sub-multiset of the input |
| Pipeline.ApplyFiltersIsSelect | src/modules/my/bikeStore/bikeStore.js:196-208 | the three staged filters keep exactly the reference selection, in the same order |
| Pipeline.SelectCounts | bicycle-store/src/modules/my/bikeStore/bikeStore.js:292-317 | each kept bike appears as often as in the catalogue, every other bike not at all |
| Pipeline.SelectConcat | bicycle-store/src/modules/my/bikeStore/bikeStore.js:292-317 | filtering preserves relative order: it distributes over concatenation |
| Pipeline.ParseSortKey | src/modules/my/bikeStore/bikeStore.js:223-242 | the four sort names select their order, and every other string leaves the order as is |
| Pipeline.Sort | src/modules/my/bikeStore/bikeStore.js:223-242 | a permutation, ordered by the key (price ascending or descending, popularity and date descending with their defaults), stable, and the identity for an unknown key |
| Pipeline.SortIsUnique | bicycle-store/src/modules/my/bikeStore/bikeStore.js:319-338 | any ordered, stable rearrangement of the input is the sort's output |
| Pipeline.SortOptions | src/modules/my/bikeStore/bikeStore.js:278-285 | four known orders, each selected exactly when it is the current sort; one is selected exactly when the sort is known |
| Pipeline.FiltersAndSort | bicycle-store/src/modules/my/bikeStore/bikeStore.js:292-317 | the displayed list is a permutation of the selection, ordered and stable, and the selection itself for an unknown key |
| Pipeline.PageSlice | src/modules/my/bikeStore/bikeStore.js:217-221 | at most a page of bikes: the page's window of the list, its tail on the last page, empty past the end |
| Pipeline.SetFilter | src/modules/my/bikeStore/bikeStore.js:139-148 | exactly the named key of the filter record changes |
| Pipeline.ClearFilter | src/modules/my/bikeStore/bikeStore.js:150-166 | the named key returns to its default and the others stay |
| Pipeline.ClearAll | src/modules/my/bikeStore/bikeStore.js:168-175 | no filter is active, and a bike matches exactly when its price is between 0 and the version's upper bound (10000 or 5000 whole units, 100 times that in cents) |
| Pipeline.ActiveFilterCount | src/modules/my/bikeStore/bikeStore.js:266-272 | at most 3; 0 exactly when nothing is filtered; 3 exactly when all three are |
| Pipeline.HasActiveFilters | src/modules/my/bikeStore/bikeStore.js:257-264 | true exactly when the active-filter count is positive |
| Pipeline.MobileFilterButtonText | src/modules/my/bikeStore/bikeStore.js:274-276 | the bare label exactly when no filter is active; otherwise "Filter (", a number that reads back as the active-filter count, and ")" |
| StoreView.UpdateDisplayedBikes | src/modules/my/bikeStore/bikeStore.js:217-221 | only the displayed page changes, to at most a page of bikes, and it is consistent with the filtered list |
| StoreView.ApplyFiltersAndSort | src/modules/my/bikeStore/bikeStore.js:193-215 | page 1, filtered list and page consistent, filtered list holds exactly the matching bikes, everything else unchanged |
| StoreView.Loaded | src/modules/my/bikeStore/bikeStore.js:95 | default filters, popularity sort, page 1, store view, consistent; a missing catalogue gives empty lists |
| StoreView.HandleFilterChange | src/modules/my/bikeStore/bikeStore.js:139-148 | the filter record gets the change, page 1, consistent |
| StoreView.HandleClearFilter | src/modules/my/bikeStore/bikeStore.js:150-166 | the named filter is reset, page 1, consistent |
| StoreView.HandleClearAllFilters | src/modules/my/bikeStore/bikeStore.js:168-175 | defaults, no active filter, and exactly the catalogue bikes priced from 0 to 10000 whole units are listed |
| StoreView.HandleSortChange | src/modules/my/bikeStore/bikeStore.js:177-180 | the sort changes, filters stay, page 1; an unknown sort lists the matches in catalogue order |
| StoreView.HandlePageNavigation | src/modules/my/bikeStore/bikeStore.js:187-190 | only the page and its slice change: the shown bikes are the new page of the unchanged filtered list, and a consistent store stays consistent |
| StoreView.HandlePopState | src/modules/my/bikeStore/bikeStore.js:68-76 | the detail view exactly for a detail entry with a bike id, selecting it; otherwise the store view with nothing selected |
| StoreView.HandleViewProductDetail | src/modules/my/bikeStore/bikeStore.js:114-122 | the detail view of that bike; nothing else changes |
| StoreView.HandleBackToStore | src/modules/my/bikeStore/bikeStore.js:124-131 | the store view with nothing selected; nothing else changes |
| StoreView.SelectedBike | src/modules/my/bikeStore/bikeStore.js:253-255 | none without a selection; otherwise the first catalogue bike with the selected id, or none exactly when no bike has it |
| StoreView.HandleAddToCart | src/modules/my/bikeStore/bikeStore.js:105-112 | an unknown bike is ignored; an invalid item fails; a fresh line adds one line; the cart stays valid |
| Pagination.TotalPages | src/modules/my/bikePagination/bikePagination.js:44-46 | the ceiling of items over page size: enough pages for every item and not one more |
| Pagination.TotalPagesIsLeast | src/modules/my/bikePagination/bikePagination.js:44-46 | no smaller page count holds every item |
| Pagination.HasNextPageIffMoreItems | src/modules/my/bikePagination/bikePagination.js:52-54 | "next" is enabled exactly when the following page would show some bike |
| Pagination.HasPreviousPageIffEarlierItems | src/modules/my/bikePagination/bikePagination.js:48-50 | on a real page, "previous" is enabled exactly when the page before would show some bike |
| Pagination.ShowPaginationIffSecondPage | src/modules/my/bikePagination/bikePagination.js:108-110 | the bar is shown exactly when the list does not fit on one page, that is, when a second page would show some bike |
| Pagination.WindowBounds | src/modules/my/bikePagination/bikePagination.js:70-96 | all pages when at most five; otherwise five consecutive pages inside the range; always containing a real current page |
| Pagination.CalculatePages | src/modules/my/bikePagination/bikePagination.js:70-106 | consecutive page buttons in the window, all pages when there are at most five, otherwise five inside 1 .. totalPages; each active exactly when it is the current page |
| Pagination.CurrentPageShown | src/modules/my/bikePagination/bikePagination.js:70-106 | a current page between 1 and totalPages always has its active button in the window |
| Pagination.AtMostOneActive | src/modules/my/bikePagination/bikePagination.js:98-106 | at most one button is active |
| Pagination.Pages | src/modules/my/bikePagination/bikePagination.js:56-68 | the memo always returns what a fresh calculation would, and stays coherent |
| Pagination.PaginationInfo | src/modules/my/bikePagination/bikePagination.js:112-122 | "no bikes" exactly for an empty list; otherwise the first and last positions of the page, the total, and a singular noun exactly for one bike |
| Pagination.InfoText | src/modules/my/bikePagination/bikePagination.js:112-122 | the no-bikes text exactly for the empty case |
| Pagination.InfoMatchesPage | src/modules/my/bikePagination/bikePagination.js:112-122 | on an existing page the line names exactly the positions of the bikes on display |
| Pagination.Previous | src/modules/my/bikePagination/bikePagination.js:20-22 | raises the page before the current one, the same event a click on that page's button raises |
| Pagination.Next | src/modules/my/bikePagination/bikePagination.js:24-26 | raises the page after the current one, the same event a click on that page's button raises |
| Pagination.PageClick | src/modules/my/bikePagination/bikePagination.js:28-33 | raises the parsed page (NaN included) exactly when it is not the current page |
| Pagination.ClickOnButton | src/modules/my/bikePagination/bikePagination.js:28-33 | clicking the button of page p raises p exactly when p is not current |
| Pagination.AllPagesCoverList | src/modules/my/bikePagination/bikePagination.js:44-46 | walking through every page shows each filtered bike exactly once, in order |
| ProductCard.Init | src/modules/my/bikeCard/bikeCard.js:14-17 | the card starts on the first colour, or none |
| ProductCard.ColorChange | src/modules/my/bikeCard/bikeCard.js:19-21 | only the selected colour changes |
| ProductCard.CurrentImage | src/modules/my/bikeCard/bikeCard.js:55-62 | the image the card shows is the one the cart store records for a line added from it |
| ProductCard.LegacyCurrentImage | bicycle-store/src/modules/my/bikeCard/bikeCard.js:55-63 | the colour entry is consulted only when a colour is selected |
| ProductCard.LegacyImageAgreement | bicycle-store/src/modules/my/bikeCard/bikeCard.js:55-63 | the two card versions show the same image unless no colour is selected and the empty colour name has an entry |
| ProductCard.LegacyImageDiffers | bicycle-store/src/modules/my/bikeCard/bikeCard.js:55-63 | a bike on which the two versions do show different images |
| ProductCard.AddToCartDetail | src/modules/my/bikeCard/bikeCard.js:23-34 | one unit of this bike in the selected colour |
| ProductCard.KeyDown | src/modules/my/bikeCard/bikeCard.js:47-53 | Enter and Space, and only those, open the bike's detail |
| ProductCard.CardColorOptions | bicycle-store/src/modules/my/bikeCard/bikeCard.js:72-80 | one option per colour, in order, capitalised, selected exactly for the selected colour |
| ProductCard.InitialOptionSelected | src/modules/my/bikeCard/bikeCard.js:76-82 | a fresh card with distinct colours selects exactly its first option |
| ProductCard.StockBadgeClass | src/modules/my/bikeCard/bikeCard.js:88-92 | the success badge exactly when in stock, the error badge exactly when out of stock |
| ProductCard.ColorSelectId | src/modules/my/bikeCard/bikeCard.js:94-96 | the prefix followed by the bike id, or by "default" without one |
| ProductDetail.Init | src/modules/my/bikeDetail/bikeDetail.js:23 | quantity 1, not zoomed, first image, first colour, a valid state |
| ProductDetail.CurrentImages | src/modules/my/bikeDetail/bikeDetail.js:129-136 | the colour's list, a single URL as a one-image list, else the product image or placeholder alone; empty exactly for an empty list entry |
| ProductDetail.CurrentImage | src/modules/my/bikeDetail/bikeDetail.js:138-142 | never empty; the indexed image when it is usable; always a gallery image or the placeholder |
| ProductDetail.NextIsModular | src/modules/my/bikeDetail/bikeDetail.js:111-117 | "next" is a step forward modulo the gallery size |
| ProductDetail.PreviousIsModular | src/modules/my/bikeDetail/bikeDetail.js:103-109 | "previous" is a step back modulo the gallery size |
| ProductDetail.StepsAreInverse | src/modules/my/bikeDetail/bikeDetail.js:103-117 | previous undoes next and next undoes previous on every gallery index |
| ProductDetail.NextImage | src/modules/my/bikeDetail/bikeDetail.js:111-117 | only the index moves, and it stays on the gallery |
| ProductDetail.HasMultipleImages | src/modules/my/bikeDetail/bikeDetail.js:220-222 | in a valid state, true exactly when the next and previous arrows change the image |
| ProductDetail.ImageCounter | src/modules/my/bikeDetail/bikeDetail.js:232-234 | the position counted from 1, " / ", and the gallery size, each number reading back with `parseInt` |
| ProductDetail.PreviousImage | src/modules/my/bikeDetail/bikeDetail.js:103-109 | only the index moves, and it stays on the gallery |
| ProductDetail.ThumbnailClick | src/modules/my/bikeDetail/bikeDetail.js:119-122 | clicking thumbnail i shows image i |
| ProductDetail.ColorChange | src/modules/my/bikeDetail/bikeDetail.js:37-40 | a new colour restarts its gallery at the first image |
| ProductDetail.ThumbnailImages | src/modules/my/bikeDetail/bikeDetail.js:224-230 | one thumbnail per gallery image, in order, active exactly at the index |
| ProductDetail.OneActiveThumbnail | src/modules/my/bikeDetail/bikeDetail.js:224-230 | exactly one thumbnail is active |
| ProductDetail.ImageClick | src/modules/my/bikeDetail/bikeDetail.js:67-69 | only the zoom flag flips |
| ProductDetail.ImageKeyDown | src/modules/my/bikeDetail/bikeDetail.js:71-76 | Enter and Space act as a click; other keys do nothing |
| ProductDetail.ZoomClose | src/modules/my/bikeDetail/bikeDetail.js:78-80 | the overlay closes and nothing else changes |
| ProductDetail.ZoomKeyDown | src/modules/my/bikeDetail/bikeDetail.js:85-101 | only while zoomed: Escape closes, the arrows step the gallery, other keys do nothing; validity kept |
| ProductDetail.ZoomRightLeft | src/modules/my/bikeDetail/bikeDetail.js:85-101 | right then left while zoomed returns to the same state |
| ProductDetail.ImageContainerClass | src/modules/my/bikeDetail/bikeDetail.js:212-218 | the zoomed class exactly while zoomed |
| ProductDetail.ZoomModalClass | src/modules/my/bikeDetail/bikeDetail.js:212-218 | the shown class exactly while zoomed |
| ProductDetail.ParseQuantity | src/modules/my/bikeDetail/bikeDetail.js:42-44 | never 0: the parsed number, or 1 for NaN and 0 |
| ProductDetail.ParseQuantityOfLabel | bicycle-store/src/modules/my/bikeDetail/bikeDetail.js:19-21 | an option labelled with a non-zero number picks that number |
| ProductDetail.QuantityChange | src/modules/my/bikeDetail/bikeDetail.js:42-44 | only the quantity changes |
| ProductDetail.QuantityOptions | src/modules/my/bikeDetail/bikeDetail.js:204-210 | the options 1 to 10, the current quantity selected; one selected exactly when it is in range |
| ProductDetail.PickedOptionSelected | bicycle-store/src/modules/my/bikeDetail/bikeDetail.js:131-137 | picking an option from the list selects exactly that option |
| ProductDetail.AddToCartDetail | src/modules/my/bikeDetail/bikeDetail.js:46-57 | the bike, the selected colour and the chosen quantity |
| ProductDetail.OriginalPrice | src/modules/my/bikeDetail/bikeDetail.js:156-161 | shown exactly when present, non-zero and different from the price |
| ProductDetail.HasDiscount | src/modules/my/bikeDetail/bikeDetail.js:163-165 | true exactly when the original price is present, non-zero and different from the price |
| ProductDetail.FrameSize | src/modules/my/bikeDetail/bikeDetail.js:193-195 | never empty: the joined sizes, or the default text for a missing or empty list |
| ProductDetail.LegacyFrameSize | bicycle-store/src/modules/my/bikeDetail/bikeDetail.js:117-120 | the default text only for a missing list; an empty list shows as empty |
| ProductDetail.FrameSizeVersions | bicycle-store/src/modules/my/bikeDetail/bikeDetail.js:117-120 | the two versions differ exactly on a list that joins to the empty string |
| ProductDetail.LegacyCurrentImage | bicycle-store/src/modules/my/bikeDetail/bikeDetail.js:61-67 | the raw colour entry for a selected colour with a usable entry, else the product image or placeholder |
| ProductDetail.LegacyImageIsGallery | bicycle-store/src/modules/my/bikeDetail/bikeDetail.js:61-67 | the older page's image for a selected colour is the current page's gallery |
| CartSummary.ClampQuantity | src/modules/my/cartSummary/cartSummary.js:26-41 | 0 exactly for an entered 0; NaN and negatives give 1; 1 to 10 kept; above 10 gives 10 |
| CartSummary.QuantityChange | src/modules/my/cartSummary/cartSummary.js:26-41 | the event carries the line's id and the clamped quantity |
| CartSummary.RemoveItem | src/modules/my/cartSummary/cartSummary.js:43-46 | the event carries the line's id and quantity 0 |
| CartSummary.QuantityChangeAccepted | src/modules/my/cartSummary/cartSummary.js:26-41 | the store always accepts the panel's quantities: a valid cart stays valid, 0 removes the line, anything else sets it within 1 to 10 |
| CartSummary.RemoveItemRemoves | src/modules/my/cartSummary/cartSummary.js:43-46 | removing drops exactly that id, and saves exactly when it was present |
| CartSummary.SummaryText | src/modules/my/cartSummary/cartSummary.js:65-70 | "Cart (0)" for no lines, else the count |
| CartSummary.SummaryTextOfState | src/modules/my/cartSummary/cartSummary.js:61-70 | on the store's own state the text shows the count, which is 0 exactly for an empty cart |
| CartSummary.ToggleCart | src/modules/my/cartSummary/cartSummary.js:22-24 | the expanded flag flips |
| CartSummary.ToggleTwice | src/modules/my/cartSummary/cartSummary.js:22-24 | toggling twice restores the panel |
| CartSummary.ExpandedClass | src/modules/my/cartSummary/cartSummary.js:72-74 | the expanded class exactly when open |
| CartSummary.ToggleButtonText | src/modules/my/cartSummary/cartSummary.js:76-78 | the down arrow exactly when open |
| CartSummary.FormatItems | src/modules/my/cartSummary/cartSummary.js:80-89 | every line in order, with its input id and the bounds 0 to 10 |
| CartSummary.QuantityIdInjective | src/modules/my/cartSummary/cartSummary.js:80-89 | different lines get different input ids |
| CartSummary.FormattedIdsDistinct | src/modules/my/cartSummary/cartSummary.js:80-89 | in a cart with unique ids the rendered inputs have distinct ids |
| CartSummary.ClampWithinInputBounds | src/modules/my/cartSummary/cartSummary.js:26-41 | every quantity sent lies within the rendered input's bounds |
| FilterPanel.CreateFilterUpdate | src/modules/my/bikeFilters/bikeFilters.js:35-53 | a price field replaces its own bound with the parsed number or its default, the other bound kept; type and brand forwarded; other names forwarded under their name |
| FilterPanel.PriceFieldKeepsOtherBound | src/modules/my/bikeFilters/bikeFilters.js:35-53 | a price field changes only its own bound |
| FilterPanel.PriceFieldRoundTrip | src/modules/my/bikeFilters/bikeFilters.js:35-53 | typing a non-zero number sets that bound to exactly it |
| FilterPanel.EmptyPriceFieldRestoresDefault | src/modules/my/bikeFilters/bikeFilters.js:35-53 | emptying a price field restores that bound's default |
| FilterPanel.TypeOptions | src/modules/my/bikeFilters/bikeFilters.js:65-84 | "All Types" then the distinct types in first-seen order, capitalised, each selected exactly when active |
| FilterPanel.BrandOptions | src/modules/my/bikeFilters/bikeFilters.js:86-105 | "All Brands" then the distinct brands in first-seen order, each selected exactly when active |
| FilterPanel.TypeOptionsCoverCatalogue | bicycle-store/src/modules/my/bikeStore/bikeStore.js:341-351 | every catalogue type has exactly one option and no other value is listed |
| FilterPanel.BrandOptionsCoverCatalogue | bicycle-store/src/modules/my/bikeStore/bikeStore.js:353-363 | every catalogue brand has exactly one option and no other value is listed |
| FilterPanel.OneTypeSelected | src/modules/my/bikeFilters/bikeFilters.js:65-84 | at most one type option is selected, and one is exactly when the active type is empty or a catalogue type |
| FilterPanel.ActiveFiltersList | src/modules/my/bikeFilters/bikeFilters.js:116-145 | one chip per active filter: a type chip exactly when a type is chosen, a brand chip exactly when a brand is, a price chip exactly when the range differs from the default |
| FilterPanel.ChipsCarryFilterValues | src/modules/my/bikeFilters/bikeFilters.js:116-145 | each chip carries its own filter's caption and value |
| FilterPanel.ChipsInKeyOrder | src/modules/my/bikeFilters/bikeFilters.js:116-145 | the chips come in the order type, brand, price |
| FilterPanel.HasActiveFiltersIffChips | src/modules/my/bikeFilters/bikeFilters.js:107-114 | the panel reports active filters exactly when it shows some chip |
| FilterPanel.ClearChipRemovesIt | src/modules/my/bikeFilters/bikeFilters.js:55-63 | closing a chip removes exactly that chip and keeps the others |
| LegacyStore.CalculateCartTotal | bicycle-store/src/modules/my/bikeStore/bikeStore.js:411-415 | zero for no lines; the sum of line totals when they are consistent |
| LegacyStore.CartCount | bicycle-store/src/modules/my/bikeStore/bikeStore.js:185-189 | zero for no lines; at least the number of lines when every quantity is positive |
| LegacyStore.CountAndTotalAdd | bicycle-store/src/modules/my/bikeStore/bikeStore.js:185-189 | the count and the computed total of two runs of lines laid end to end are the sums of their counts and totals |
| LegacyStore.CountAndTotalOfOneLine | bicycle-store/src/modules/my/bikeStore/bikeStore.js:185-189 | one line counts its quantity and is worth price times quantity |
| LegacyStore.LoadCart | bicycle-store/src/modules/my/bikeStore/bikeStore.js:425-441 | a balanced cart of the stored lines with recomputed totals; empty when unreadable |
| LegacyStore.LoadCartRoundTrip | bicycle-store/src/modules/my/bikeStore/bikeStore.js:425-441 | storing a balanced cart and loading it back gives the same cart |
| LegacyStore.HandleAddToCart | bicycle-store/src/modules/my/bikeStore/bikeStore.js:116-138 | an unknown bike is ignored; otherwise a line is appended and the total grows by its value; a balanced cart stays balanced |
| LegacyStore.HandleAddToCartCount | bicycle-store/src/modules/my/bikeStore/bikeStore.js:116-138 | adding a known bike raises the count by the quantity added |
| LegacyStore.UpdatedItems | bicycle-store/src/modules/my/bikeStore/bikeStore.js:165-181 | 0 drops the id; anything else sets the quantity and total of every line with the id and keeps the rest |
| LegacyStore.HandleUpdateCart | bicycle-store/src/modules/my/bikeStore/bikeStore.js:165-181 | the lines are updated while the tracked total keeps its old value |
| LegacyStore.HandleUpdateCartCount | bicycle-store/src/modules/my/bikeStore/bikeStore.js:165-181 | with one line per id, the count moves by the change in that line's quantity; 0 takes away its whole quantity |
| LegacyStore.UpdateCartLeavesTotalStale | bicycle-store/src/modules/my/bikeStore/bikeStore.js:165-181 | a balanced cart that an update leaves unbalanced |
| LegacyStore.HandleUpdateCartRecomputed | bicycle-store/src/modules/my/bikeStore/bikeStore.js:165-181 | the same lines with the total recomputed keep the cart balanced |
| LegacyStore.RecomputedTotalDelta | bicycle-store/src/modules/my/bikeStore/bikeStore.js:165-181 | the recomputed total moves by exactly the changed line's value |
| LegacyStore.SetQuantityValue | bicycle-store/src/modules/my/bikeStore/bikeStore.js:165-181 | with unique ids, setting one line's quantity moves the summed value by that line's price times the change |
| LegacyStore.ApplyFiltersAndSort | bicycle-store/src/modules/my/bikeStore/bikeStore.js:292-317 | the filtered list holds exactly the matching bikes and nothing else changes |
| LegacyStore.Loaded | bicycle-store/src/modules/my/bikeStore/bikeStore.js:292-317 | default filters under the older defaults, popularity sort, store view, a balanced cart |
| LegacyStore.HandleFilterChange | bicycle-store/src/modules/my/bikeStore/bikeStore.js:192-202 | the filter record gets the change and the list follows |
| LegacyStore.HandleTypeFilter | bicycle-store/src/modules/my/bikeStore/bikeStore.js:204-210 | only the type filter changes |
| LegacyStore.HandleBrandFilter | bicycle-store/src/modules/my/bikeStore/bikeStore.js:212-218 | only the brand filter changes |
| LegacyStore.HandleMinPriceChange | bicycle-store/src/modules/my/bikeStore/bikeStore.js:220-230 | only the minimum changes, to the parsed number or 0 |
| LegacyStore.HandleMaxPriceChange | bicycle-store/src/modules/my/bikeStore/bikeStore.js:232-242 | only the maximum changes, to the parsed number or 5000 |
| LegacyStore.HandleRemoveFilter | bicycle-store/src/modules/my/bikeStore/bikeStore.js:244-254 | only the type and brand keys clear anything |
| LegacyStore.HandleClearFilters | bicycle-store/src/modules/my/bikeStore/bikeStore.js:261-268 | no active filter, and exactly the catalogue bikes priced from 0 to 5000 whole units are listed |
| LegacyStore.HandleClearFilter | bicycle-store/src/modules/my/bikeStore/bikeStore.js:270-286 | the named filter is reset, the price range to 0 to 5000 |
| LegacyStore.RemoveAndClearAgree | bicycle-store/src/modules/my/bikeStore/bikeStore.js:244-286 | the two clearing handlers agree except on the price range, which only one resets |
| LegacyStore.HandleSortChange | bicycle-store/src/modules/my/bikeStore/bikeStore.js:256-259 | the sort changes and the list follows; an unknown sort keeps catalogue order |
| LegacyStore.MaxPrice | bicycle-store/src/modules/my/bikeStore/bikeStore.js:392-394 | in cents: at least 5000 whole units and every bike's price, and equal to 5000 units or to some bike's price |
| LegacyStore.HandlePopState | bicycle-store/src/modules/my/bikeStore/bikeStore.js:47-61 | the detail view exactly for a detail entry with a bike id |
| LegacyStore.PopStateAgrees | bicycle-store/src/modules/my/bikeStore/bikeStore.js:47-61 | both storefronts react to a history entry the same way |
| LegacyStore.HandleViewProductDetail | bicycle-store/src/modules/my/bikeStore/bikeStore.js:140-153 | the detail view of that bike; nothing else changes |
| LegacyStore.HandleBackToStore | bicycle-store/src/modules/my/bikeStore/bikeStore.js:155-163 | the store view with nothing selected; nothing else changes |
| LegacyStore.SelectedBike | bicycle-store/src/modules/my/bikeStore/bikeStore.js:405-408 | none without a selection; the first catalogue bike with the id, or none when no bike has it |

## Left out

- Fetching the catalogue and the sample data used when the fetch fails: I/O. The model takes the loaded list (or its absence) as a parameter.
- `localStorage` and JSON: the stored value is a parameter. A missing key, a parse failure and a non-array value are one `None`.
- `window.history`, DOM event listeners, `setTimeout`, the cart confirmation and `dispatchEvent` plumbing: browser I/O. Events are returned as values.
- Currency formatting (`Intl.NumberFormat`) and every `formatted…` getter: locale-dependent text. Prices are shown as integer cents.
- Floating-point prices: prices are integer cents, so a price with more than two decimals is not representable.
- Dates: `new Date(…)` comparisons are modelled as yyyymmdd integers.
- Cart id generation (`Date.now()` and random suffixes): the new id is a parameter.
- The cart store's listener set and the derived-state cache: notification is the `saved` flag, and the state is recomputed eagerly.
- The option-list cache of the filter panel: the lists are computed fresh, so the cache's staleness is not modelled.
- `deliveryTime`, `specifications` and the description getters of the detail pages: plain field reads with no logic.
- `handleToggleMobileFilters` and the mobile layout classes: a boolean flip with no bearing on the catalogue.
- `handleViewDetails` on the cards and `handleZoomContentClick`: they only raise an event with the bike id or stop propagation.
- `isStoreView` / `isDetailView`: they read the `Page` value directly.
- The older cart summary: it is the same panel without clamping and is not part of this model.
- ProductDetail.ThumbnailClick: takes the thumbnail's position as an integer. A `data-index` that does not parse (NaN) is not modelled.
- Pagination.TotalPages: requires a positive page size. The store always passes 6, and a size of 0 would make JavaScript divide by zero.
- FilterPanel.CreateFilterUpdate: returns `None` for a field named `priceRange`. A text value under that key has no counterpart in the typed filter record.
- StoreView.HandleAddToCart: states the fresh-line case and the failure cases, but not the merged-line quantities. Those are stated on `CartStore.AddItem`.
- Common.ToUpper: upper-cases ASCII letters only. JavaScript's `toUpperCase` also maps other letters ("é" to "É", "ß" to "SS"), so `Capitalize` differs on a name that starts with one.
- Common.ParseInt: skips only space, tab, newline and carriage return before the number. `parseInt` also skips the other Unicode white space (no-break space, form feed, line separators and so on).
- StoreView.HandlePageNavigation: takes the page as an integer, so a `NaN` or non-integer `event.detail.page` is not representable.
- LegacyCartStore.LoadFromStorage: a `null` entry in the stored array makes the `forEach` throw midway, and the `catch` keeps the lines set before it. Stored entries are lines here, so that partial load is not modelled.
- Pipeline.FiltersAndSort: states the result as a permutation of the reference selection, plus order and stability. Equality with a specific list follows from `Pipeline.SortIsUnique`.

## Findings

| source | as written | input that shows it | evidently intended | confidence | as-written member | corrected member |
|---|---|---|---|---|---|---|
| bicycle-store/src/modules/my/bikeStore/bikeStore.js:165-181 | `handleUpdateCart` rewrites `cartItems` but never calls `calculateCartTotal` (nor saves), so the tracked `cartTotal` keeps its old value | a cart with one line, price 100, quantity 1 and total 100; update that line to quantity 2: the line total becomes 200 but `cartTotal` stays 100 | recompute `cartTotal` after every change to the lines, as `handleAddToCart` and the load path do | not executed | LegacyStore.HandleUpdateCart (counterexample LegacyStore.UpdateCartLeavesTotalStale) | LegacyStore.HandleUpdateCartRecomputed |
