/** The current storefront component (src/modules/my/bikeStore/bikeStore.js):
    the catalogue, the active filters, the sort order and the current page,
    together with the filtered list and the page of it on display, which every
    handler keeps in step; plus the store/detail view switch and the two cart
    handlers that forward to the cart store. */
module StoreView {
  import opened Common
  import opened Catalogue
  import opened Pipeline
  import CartStore
  import CartLines

  datatype Page = StorePage | DetailPage

  /** The component state the handlers read and write. `selectedBikeId` is
      `null` as the empty string. */
  datatype Store = Store(
    bikes: seq<Product>,
    filters: FilterState,
    sortBy: string,
    itemsPerPage: int,
    currentPage: int,
    filtered: seq<Product>,
    displayed: seq<Product>,
    view: Page,
    selectedBikeId: string
  )

  /** `itemsPerPage = 6`. */
  const ItemsPerPage: int := 6

  /** The filtered list is the filtered and sorted catalogue, and the page on
      display is its slice for the current page. */
  predicate Consistent(st: Store) {
    && st.filtered == FiltersAndSort(st.bikes, st.filters, st.sortBy, Current)
    && st.displayed == PageSlice(st.filtered, st.currentPage, st.itemsPerPage)
  }

  /** `updateDisplayedBikes`. */
  function UpdateDisplayedBikes(st: Store): (r: Store)
    ensures r.(displayed := st.displayed) == st
    ensures st.currentPage >= 1 && st.itemsPerPage >= 0 ==> |r.displayed| <= st.itemsPerPage
    ensures st.filtered == FiltersAndSort(st.bikes, st.filters, st.sortBy, Current) ==> Consistent(r)
  {
    st.(displayed := PageSlice(st.filtered, st.currentPage, st.itemsPerPage))
  }

  /** `applyFiltersAndSort`: recompute the filtered list, go back to page 1 and
      show it. */
  function ApplyFiltersAndSort(st: Store): (r: Store)
    ensures Consistent(r)
    ensures r.currentPage == 1
    ensures r.bikes == st.bikes && r.filters == st.filters && r.sortBy == st.sortBy
    ensures r.itemsPerPage == st.itemsPerPage && r.view == st.view && r.selectedBikeId == st.selectedBikeId
    ensures forall b :: b in r.filtered <==> b in st.bikes && Matches(b, st.filters)
  {
    var filtered := FiltersAndSort(st.bikes, st.filters, st.sortBy, Current);
    assert multiset(filtered) == multiset(Select(st.bikes, st.filters));
    assert forall b :: b in filtered <==> b in multiset(filtered);
    UpdateDisplayedBikes(st.(filtered := filtered, currentPage := 1))
  }

  /** The store when the catalogue has loaded (`data.bikes || []`): default
      filters, sorted by popularity, first page. */
  function Loaded(bikes: Option<seq<Product>>): (r: Store)
    ensures Consistent(r) && r.currentPage == 1 && r.view == StorePage
    ensures r.filters == DefaultFilters(Current) && r.sortBy == "popularity"
    ensures bikes.None? ==> r.filtered == [] && r.displayed == []
  {
    var all := if bikes.Some? then bikes.value else [];
    ApplyFiltersAndSort(Store(all, DefaultFilters(Current), "popularity", ItemsPerPage, 1, [], [], StorePage, ""))
  }

  /** `handleFilterChange`. */
  function HandleFilterChange(st: Store, c: FilterChange): (r: Store)
    ensures Consistent(r) && r.currentPage == 1
    ensures r.filters == SetFilter(st.filters, c)
    ensures r.bikes == st.bikes && r.sortBy == st.sortBy
  {
    ApplyFiltersAndSort(st.(filters := SetFilter(st.filters, c)))
  }

  /** `handleClearFilter`. */
  function HandleClearFilter(st: Store, filterType: string): (r: Store)
    ensures Consistent(r) && r.currentPage == 1
    ensures r.filters == ClearFilter(st.filters, filterType, Current)
    ensures r.bikes == st.bikes && r.sortBy == st.sortBy
  {
    ApplyFiltersAndSort(st.(filters := ClearFilter(st.filters, filterType, Current)))
  }

  /** `handleClearAllFilters`. */
  function HandleClearAllFilters(st: Store): (r: Store)
    ensures Consistent(r) && r.currentPage == 1
    ensures r.filters == DefaultFilters(Current) && ActiveFilterCount(r.filters, Current) == 0
    ensures forall b :: b in r.filtered <==> b in st.bikes && 0 <= b.price <= 100 * Current.upperPrice
  {
    ApplyFiltersAndSort(st.(filters := ClearAll(st.filters, Current)))
  }

  /** `handleSortChange`: any string is accepted; an unknown one leaves the
      filtered list in catalogue order. */
  function HandleSortChange(st: Store, value: string): (r: Store)
    ensures Consistent(r) && r.currentPage == 1
    ensures r.sortBy == value && r.filters == st.filters
    ensures ParseSortKey(value) == Unsorted ==> r.filtered == Select(st.bikes, st.filters)
  {
    ApplyFiltersAndSort(st.(sortBy := value))
  }

  /** `handlePageNavigation`: only the page changes; the filtered list stays. */
  function HandlePageNavigation(st: Store, page: int): (r: Store)
    ensures Consistent(st) ==> Consistent(r)
    ensures r.currentPage == page && r.filtered == st.filtered
    ensures r.displayed == PageSlice(st.filtered, page, st.itemsPerPage)
    ensures r.(displayed := st.displayed, currentPage := st.currentPage) == st
  {
    UpdateDisplayedBikes(st.(currentPage := page))
  }

  /** A `popstate` history entry; a missing `bikeId` is the empty string. */
  datatype HistoryState = HistoryState(view: string, bikeId: string)

  /** `_handlePopState`: the detail view only for a detail entry with a bike
      id; the store view, with no bike selected, otherwise. */
  function HandlePopState(st: Store, state: Option<HistoryState>): (r: Store)
    ensures r.view == DetailPage <==> state.Some? && state.value.view == "detail" && state.value.bikeId != ""
    ensures r.view == DetailPage ==> r.selectedBikeId == state.value.bikeId
    ensures r.view == StorePage ==> r.selectedBikeId == ""
    ensures r.(view := st.view, selectedBikeId := st.selectedBikeId) == st
  {
    if state.Some? && state.value.view == "detail" && state.value.bikeId != "" then
      st.(selectedBikeId := state.value.bikeId, view := DetailPage)
    else
      st.(view := StorePage, selectedBikeId := "")
  }

  /** `handleViewProductDetail` (the history push is left out). */
  function HandleViewProductDetail(st: Store, bikeId: string): (r: Store)
    ensures r.view == DetailPage && r.selectedBikeId == bikeId
    ensures r.(view := st.view, selectedBikeId := st.selectedBikeId) == st
  {
    st.(selectedBikeId := bikeId, view := DetailPage)
  }

  /** `handleBackToStore`. */
  function HandleBackToStore(st: Store): (r: Store)
    ensures r.view == StorePage && r.selectedBikeId == ""
    ensures r.(view := st.view, selectedBikeId := st.selectedBikeId) == st
  {
    st.(view := StorePage, selectedBikeId := "")
  }

  /** `selectedBike`: the first catalogue bike with the selected id, if any. */
  function SelectedBike(st: Store): (r: Option<Product>)
    ensures st.selectedBikeId == "" ==> r.None?
    ensures r.Some? ==> r.value in st.bikes && r.value.id == st.selectedBikeId
    ensures r.Some? ==>
      exists i :: 0 <= i < |st.bikes| && st.bikes[i] == r.value && forall j :: 0 <= j < i ==> st.bikes[j].id != st.selectedBikeId
    ensures st.selectedBikeId != "" && r.None? ==> forall b :: b in st.bikes ==> b.id != st.selectedBikeId
  {
    if st.selectedBikeId == "" then None else FindFirst(st.bikes, st.selectedBikeId)
  }

  /** `handleAddToCart`: an unknown bike id is ignored; otherwise the first
      catalogue bike with that id goes to the cart store, whose error (if
      any) propagates. */
  function HandleAddToCart(st: Store, cart: CartStore.Cart, bikeId: string, color: string,
                           quantity: int, newId: CartStore.CartId)
    : (r: Result<CartStore.Cart, CartStore.CartError>)
    ensures FindFirst(st.bikes, bikeId).None? ==> r == Success(cart)
    ensures r.Failure? ==> FindFirst(st.bikes, bikeId).Some?
    ensures FindFirst(st.bikes, bikeId).Some? && CartStore.RejectedItem(FindFirst(st.bikes, bikeId).value, quantity)
      ==> r == Failure(CartStore.InvalidItem)
    ensures FindFirst(st.bikes, bikeId).Some? && !CartStore.RejectedItem(FindFirst(st.bikes, bikeId).value, quantity)
      && CartStore.FindExistingItem(cart, bikeId, color).None? && newId !in CartLines.Ids(cart.lines)
      ==> r.Success? && |r.value.lines| == |cart.lines| + 1
    ensures CartStore.Valid(cart) && r.Success? ==> CartStore.Valid(r.value)
  {
    match FindFirst(st.bikes, bikeId)
    case None => Success(cart)
    case Some(bike) =>
      match CartStore.AddItem(cart, bike, color, quantity, newId)
      case Success(step) => Success(step.cart)
      case Failure(e) => Failure(e)
  }
}
