/** The older storefront component (bicycle-store/src/modules/my/bikeStore/bikeStore.js):
    the same filter and sort pipeline with the older defaults (upper price
    5000, missing release date 2024-01-01) and no pagination, its own price
    and filter handlers, and a cart kept inline as a list of lines plus a
    tracked `cartTotal` property. */
module LegacyStore {
  import opened Common
  import opened Catalogue
  import opened CartLines
  import opened Pipeline
  import FilterPanel
  import StoreView

  // ---------------------------------------------------------------------------
  // The inline cart

  /** A line of the inline cart; its id is a `Date.now()` timestamp, so two
      lines can share one. The line's image is the bike's own. */
  type InlineLine = CartLine<int>

  /** `cartItems` and the tracked `cartTotal`. */
  datatype InlineCart = InlineCart(items: seq<InlineLine>, cartTotal: int)

  /** `calculateCartTotal`: the sum of price times quantity over the lines. */
  function CalculateCartTotal(items: seq<InlineLine>): (t: int)
    ensures |items| == 0 ==> t == 0
    ensures TotalsConsistent(items) ==> t == SumBy(items, LineTotalOf)
  {
    TotalIsValue(items);
    SumBy(items, ValueOf)
  }

  /** `cartCount`: the sum of the quantities. */
  function CartCount(items: seq<InlineLine>): (n: int)
    ensures |items| == 0 ==> n == 0
    ensures (forall i :: 0 <= i < |items| ==> items[i].quantity >= 1) ==> n >= |items|
  {
    CountAtLeastLines(items);
    SumBy(items, QuantityOf)
  }

  /** What the component means to keep true: every line total is price times
      quantity and `cartTotal` is the cart's value. */
  predicate Balanced(c: InlineCart) {
    TotalsConsistent(c.items) && c.cartTotal == CalculateCartTotal(c.items)
  }

  /** `loadCartFromStorage`: every stored line gets its line total
      recomputed, then the total; unreadable storage gives an empty cart. */
  function LoadCart(saved: Option<seq<InlineLine>>): (c: InlineCart)
    ensures Balanced(c)
    ensures saved.None? ==> c.items == []
    ensures saved.Some? ==>
      && |c.items| == |saved.value|
      && forall i :: 0 <= i < |c.items| ==> c.items[i] == Recomputed(saved.value[i])
  {
    match saved
    case None => InlineCart([], 0)
    case Some(lines) =>
      var items := seq(|lines|, i requires 0 <= i < |lines| => Recomputed(lines[i]));
      InlineCart(items, CalculateCartTotal(items))
  }

  /** Storing a balanced cart and loading it back gives the same cart. */
  lemma LoadCartRoundTrip(c: InlineCart)
    requires Balanced(c)
    ensures LoadCart(Some(c.items)) == c
  {
    var r := LoadCart(Some(c.items));
    assert r.items == c.items;
  }

  /** The component state the handlers read and write. */
  datatype Store = Store(
    bikes: seq<Product>,
    filters: FilterState,
    sortBy: string,
    filtered: seq<Product>,
    cart: InlineCart,
    view: StoreView.Page,
    selectedBikeId: string
  )

  /** The line `handleAddToCart` appends. */
  function NewInlineLine(bike: Product, color: string, quantity: int, now: int): (l: InlineLine)
    ensures l.product == bike && l.cartId == now && l.selectedColor == color && l.quantity == quantity
    ensures l.lineTotal == bike.price * quantity
  {
    CartLine(bike, now, color, quantity, bike.price * quantity, Some(bike.image))
  }

  /** `handleAddToCart`: an unknown bike id is ignored; otherwise a new line
      is always appended (never merged, never validated) and the total is
      recomputed, growing by the line's value. */
  function HandleAddToCart(st: Store, bikeId: string, color: string, quantity: int, now: int): (r: Store)
    ensures r.(cart := st.cart) == st
    ensures FindFirst(st.bikes, bikeId).None? ==> r == st
    ensures FindFirst(st.bikes, bikeId).Some? ==>
      var bike := FindFirst(st.bikes, bikeId).value;
      && r.cart.items == st.cart.items + [NewInlineLine(bike, color, quantity, now)]
      && r.cart.cartTotal == CalculateCartTotal(st.cart.items) + bike.price * quantity
    ensures Balanced(st.cart) ==> Balanced(r.cart)
    ensures FindFirst(st.bikes, bikeId).Some? && TotalsConsistent(st.cart.items) ==> Balanced(r.cart)
  {
    match FindFirst(st.bikes, bikeId)
    case None => st
    case Some(bike) =>
      var items := st.cart.items + [NewInlineLine(bike, color, quantity, now)];
      SumByConcat(st.cart.items, [NewInlineLine(bike, color, quantity, now)], ValueOf);
      st.(cart := InlineCart(items, CalculateCartTotal(items)))
  }

  /** Every line with the given id gets the new quantity and its line total;
      the others stay. */
  function SetQuantityWhere(items: seq<InlineLine>, cartId: int, quantity: int): (r: seq<InlineLine>)
    ensures |r| == |items|
    ensures forall i :: 0 <= i < |items| ==>
      r[i] == if items[i].cartId == cartId
              then items[i].(quantity := quantity, lineTotal := items[i].product.price * quantity)
              else items[i]
  {
    seq(|items|, i requires 0 <= i < |items| =>
      if items[i].cartId == cartId
      then items[i].(quantity := quantity, lineTotal := items[i].product.price * quantity)
      else items[i])
  }

  /** The new lines of `handleUpdateCart`: 0 drops every line with the id,
      anything else sets the quantity and line total of every such line. */
  function UpdatedItems(items: seq<InlineLine>, cartId: int, quantity: int): (r: seq<InlineLine>)
    ensures quantity == 0 ==> Ids(r) == Ids(items) - {cartId} && forall l :: l in r ==> l in items
    ensures quantity != 0 ==> |r| == |items| && Ids(r) == Ids(items)
    ensures quantity != 0 ==> forall i :: 0 <= i < |items| && items[i].cartId != cartId ==> r[i] == items[i]
    ensures quantity != 0 ==> forall i :: 0 <= i < |items| && items[i].cartId == cartId ==>
      r[i].quantity == quantity && r[i].lineTotal == items[i].product.price * quantity
    ensures TotalsConsistent(items) ==> TotalsConsistent(r)
  {
    if quantity == 0 then
      DeleteKeepsInvariants(items, cartId);
      Delete(items, cartId)
    else
      var r := SetQuantityWhere(items, cartId, quantity);
      assert Ids(r) == Ids(items) by {
        forall x | x in Ids(items) ensures x in Ids(r) {
          var i :| 0 <= i < |items| && items[i].cartId == x;
          assert r[i].cartId == x;
        }
        forall x | x in Ids(r) ensures x in Ids(items) {
          var i :| 0 <= i < |r| && r[i].cartId == x;
          assert items[i].cartId == x;
        }
      }
      r
  }

  /** `handleUpdateCart` as written: the lines change but the tracked
      `cartTotal` keeps its old value (and nothing is saved). */
  function HandleUpdateCart(st: Store, cartId: int, quantity: int): (r: Store)
    ensures r.(cart := st.cart) == st
    ensures r.cart.items == UpdatedItems(st.cart.items, cartId, quantity)
    ensures r.cart.cartTotal == st.cart.cartTotal
  {
    st.(cart := st.cart.(items := UpdatedItems(st.cart.items, cartId, quantity)))
  }

  /** A balanced one-line cart whose quantity goes from 1 to 2 through
      `handleUpdateCart`: the line's total doubles, the cart total does not. */
  lemma UpdateCartLeavesTotalStale()
    ensures var bike := Product("b", "", "", "", 100, None, true, [], map[], "", None, None, None);
      var line := CartLine(bike, 7, "", 1, 100, Some(""));
      var st := Store([bike], DefaultFilters(Legacy), "popularity", [], InlineCart([line], 100), StoreView.StorePage, "");
      && Balanced(st.cart)
      && HandleUpdateCart(st, 7, 2).cart.cartTotal == 100
      && CalculateCartTotal(HandleUpdateCart(st, 7, 2).cart.items) == 200
      && !Balanced(HandleUpdateCart(st, 7, 2).cart)
  {
    var bike := Product("b", "", "", "", 100, None, true, [], map[], "", None, None, None);
    var line := CartLine(bike, 7, "", 1, 100, Some(""));
    var st := Store([bike], DefaultFilters(Legacy), "popularity", [], InlineCart([line], 100), StoreView.StorePage, "");
    var items := HandleUpdateCart(st, 7, 2).cart.items;
    assert [line][1..] == [];
    assert SumBy([line], ValueOf) == 100;
    assert items[0] == line.(quantity := 2, lineTotal := 200);
    assert items == [line.(quantity := 2, lineTotal := 200)];
    assert items[1..] == [];
    assert SumBy(items, ValueOf) == 200;
  }

  /** `handleUpdateCart` with the total recomputed, as `handleAddToCart` and
      the load path do: the cart stays balanced. */
  function HandleUpdateCartRecomputed(st: Store, cartId: int, quantity: int): (r: Store)
    ensures r.(cart := st.cart) == st
    ensures r.cart.items == HandleUpdateCart(st, cartId, quantity).cart.items
    ensures TotalsConsistent(st.cart.items) ==> Balanced(r.cart)
  {
    var items := UpdatedItems(st.cart.items, cartId, quantity);
    st.(cart := InlineCart(items, CalculateCartTotal(items)))
  }

  /** With unique ids, setting the quantity of line `k`'s id changes that
      line alone. */
  lemma SetQuantityIsUpdate(items: seq<InlineLine>, k: nat, quantity: int)
    requires UniqueIds(items) && k < |items|
    ensures var l := items[k];
      SetQuantityWhere(items, l.cartId, quantity)
        == items[k := l.(quantity := quantity, lineTotal := l.product.price * quantity)]
  {
    var l := items[k];
    var r := SetQuantityWhere(items, l.cartId, quantity);
    var l' := l.(quantity := quantity, lineTotal := l.product.price * quantity);
    forall i | 0 <= i < |items| ensures r[i] == items[k := l'][i] {
      if i != k {
        assert items[i].cartId != l.cartId;
      }
    }
  }

  /** Setting line `k`'s quantity moves the summed value by that line's
      price times the change in quantity. */
  lemma SetQuantityValue(items: seq<InlineLine>, k: nat, quantity: int)
    requires UniqueIds(items) && k < |items|
    ensures var l := items[k];
      SumBy(SetQuantityWhere(items, l.cartId, quantity), ValueOf)
        == SumBy(items, ValueOf) - l.product.price * l.quantity + l.product.price * quantity
  {
    var l := items[k];
    var l' := l.(quantity := quantity, lineTotal := l.product.price * quantity);
    SetQuantityIsUpdate(items, k, quantity);
    SumByUpdate(items, k, l', ValueOf);
  }

  /** The recomputed total is the summed value of the updated lines. */
  lemma RecomputedTotalIsValue(st: Store, cartId: int, quantity: int)
    ensures HandleUpdateCartRecomputed(st, cartId, quantity).cart.cartTotal
      == SumBy(UpdatedItems(st.cart.items, cartId, quantity), ValueOf)
  {
  }

  /** With one line per id, the recomputed total moves by exactly the
      changed line's value. */
  lemma RecomputedTotalDelta(st: Store, k: nat, quantity: int)
    requires Balanced(st.cart) && UniqueIds(st.cart.items) && k < |st.cart.items|
    ensures var l := st.cart.items[k];
      var r := HandleUpdateCartRecomputed(st, l.cartId, quantity);
      r.cart.cartTotal == st.cart.cartTotal + l.product.price * (quantity - l.quantity)
  {
    var items := st.cart.items;
    var l := items[k];
    RecomputedTotalIsValue(st, l.cartId, quantity);
    if quantity == 0 {
      SumByDelete(items, k, ValueOf);
      Distribute(l.product.price, l.quantity, 0);
    } else {
      SetQuantityValue(items, k, quantity);
      Distribute(l.product.price, l.quantity, quantity);
    }
  }

  /** The count and the computed total are sums over the lines: two runs of
      lines laid end to end add up, and one line contributes its quantity and
      its value. */
  lemma CountAndTotalAdd(a: seq<InlineLine>, b: seq<InlineLine>)
    ensures CartCount(a + b) == CartCount(a) + CartCount(b)
    ensures CalculateCartTotal(a + b) == CalculateCartTotal(a) + CalculateCartTotal(b)
  {
    SumByConcat(a, b, QuantityOf);
    SumByConcat(a, b, ValueOf);
  }

  lemma CountAndTotalOfOneLine(l: InlineLine)
    ensures CartCount([l]) == l.quantity
    ensures CalculateCartTotal([l]) == l.product.price * l.quantity
  {
    assert [l][1..] == [];
    assert SumBy([l], QuantityOf) == QuantityOf(l) + SumBy([l][1..], QuantityOf);
    assert SumBy([l], ValueOf) == ValueOf(l) + SumBy([l][1..], ValueOf);
  }

  /** Adding a known bike raises the count by the quantity added. */
  lemma HandleAddToCartCount(st: Store, bikeId: string, color: string, quantity: int, now: int)
    requires FindFirst(st.bikes, bikeId).Some?
    ensures CartCount(HandleAddToCart(st, bikeId, color, quantity, now).cart.items) == CartCount(st.cart.items) + quantity
  {
    var line := NewInlineLine(FindFirst(st.bikes, bikeId).value, color, quantity, now);
    CountAndTotalAdd(st.cart.items, [line]);
    CountAndTotalOfOneLine(line);
  }

  /** With one line per id, updating line `k` moves the count by the change
      in its quantity; 0 removes the line and so its whole quantity. */
  lemma HandleUpdateCartCount(st: Store, k: nat, quantity: int)
    requires UniqueIds(st.cart.items) && k < |st.cart.items|
    ensures var l := st.cart.items[k];
      CartCount(HandleUpdateCart(st, l.cartId, quantity).cart.items) == CartCount(st.cart.items) - l.quantity + quantity
  {
    var items := st.cart.items;
    var l := items[k];
    if quantity == 0 {
      SumByDelete(items, k, QuantityOf);
    } else {
      var l' := l.(quantity := quantity, lineTotal := l.product.price * quantity);
      SetQuantityIsUpdate(items, k, quantity);
      SumByUpdate(items, k, l', QuantityOf);
    }
  }

  // ---------------------------------------------------------------------------
  // The catalogue pipeline

  /** The filtered list is the filtered and sorted catalogue under the older
      defaults. */
  predicate Consistent(st: Store) {
    st.filtered == FiltersAndSort(st.bikes, st.filters, st.sortBy, Legacy)
  }

  /** `applyFiltersAndSort`. */
  function ApplyFiltersAndSort(st: Store): (r: Store)
    ensures Consistent(r)
    ensures r.(filtered := st.filtered) == st
    ensures forall b :: b in r.filtered <==> b in st.bikes && Matches(b, st.filters)
  {
    var filtered := FiltersAndSort(st.bikes, st.filters, st.sortBy, Legacy);
    assert multiset(filtered) == multiset(Select(st.bikes, st.filters));
    assert forall b :: b in filtered <==> b in multiset(filtered);
    st.(filtered := filtered)
  }

  /** The store when the catalogue has loaded (`data.bikes || []`), with the
      initial filters and sort and a cart loaded from storage. */
  function Loaded(bikes: Option<seq<Product>>, saved: Option<seq<InlineLine>>): (r: Store)
    ensures Consistent(r) && Balanced(r.cart)
    ensures r.filters == DefaultFilters(Legacy) && r.sortBy == "popularity"
    ensures r.view == StoreView.StorePage && r.selectedBikeId == ""
    ensures bikes.None? ==> r.filtered == []
  {
    var all := if bikes.Some? then bikes.value else [];
    ApplyFiltersAndSort(Store(all, DefaultFilters(Legacy), "popularity", [], LoadCart(saved), StoreView.StorePage, ""))
  }

  /** `handleFilterChange`. */
  function HandleFilterChange(st: Store, c: FilterChange): (r: Store)
    ensures Consistent(r) && r.filters == SetFilter(st.filters, c)
    ensures r.(filtered := st.filtered, filters := st.filters) == st
  {
    ApplyFiltersAndSort(st.(filters := SetFilter(st.filters, c)))
  }

  /** `handleTypeFilter`. */
  function HandleTypeFilter(st: Store, value: string): (r: Store)
    ensures Consistent(r) && r.filters == st.filters.(bikeType := value)
    ensures r.(filtered := st.filtered, filters := st.filters) == st
  {
    ApplyFiltersAndSort(st.(filters := st.filters.(bikeType := value)))
  }

  /** `handleBrandFilter`. */
  function HandleBrandFilter(st: Store, value: string): (r: Store)
    ensures Consistent(r) && r.filters == st.filters.(brand := value)
    ensures r.(filtered := st.filtered, filters := st.filters) == st
  {
    ApplyFiltersAndSort(st.(filters := st.filters.(brand := value)))
  }

  /** `handleMinPriceChange`: `parseInt(value) || 0` as the new minimum; the
      maximum, the type and the brand stay. */
  function HandleMinPriceChange(st: Store, value: string): (r: Store)
    ensures Consistent(r)
    ensures r.filters.(priceRange := st.filters.priceRange) == st.filters
    ensures r.filters.priceRange.max == st.filters.priceRange.max
    ensures r.filters.priceRange.min == ParseIntOr(value, 0)
    ensures r.(filtered := st.filtered, filters := st.filters) == st
  {
    ApplyFiltersAndSort(st.(filters := FilterPanel.ApplyPriceField(st.filters, "minPrice", value, Legacy)))
  }

  /** `handleMaxPriceChange`: `parseInt(value) || 5000` as the new maximum;
      the minimum, the type and the brand stay. */
  function HandleMaxPriceChange(st: Store, value: string): (r: Store)
    ensures Consistent(r)
    ensures r.filters.(priceRange := st.filters.priceRange) == st.filters
    ensures r.filters.priceRange.min == st.filters.priceRange.min
    ensures r.filters.priceRange.max == ParseIntOr(value, Legacy.upperPrice)
    ensures r.(filtered := st.filtered, filters := st.filters) == st
  {
    ApplyFiltersAndSort(st.(filters := FilterPanel.ApplyPriceField(st.filters, "maxPrice", value, Legacy)))
  }

  /** `handleRemoveFilter`: only the type and brand chips clear anything;
      every other key leaves the filters as they are. */
  function HandleRemoveFilter(st: Store, filterType: string): (r: Store)
    ensures Consistent(r)
    ensures filterType == "type" ==> r.filters == st.filters.(bikeType := "")
    ensures filterType == "brand" ==> r.filters == st.filters.(brand := "")
    ensures filterType != "type" && filterType != "brand" ==> r.filters == st.filters
    ensures r.(filtered := st.filtered, filters := st.filters) == st
  {
    var f := st.filters;
    var f' := if filterType == "type" then f.(bikeType := "")
              else if filterType == "brand" then f.(brand := "")
              else f;
    ApplyFiltersAndSort(st.(filters := f'))
  }

  /** `handleClearFilters`. */
  function HandleClearFilters(st: Store): (r: Store)
    ensures Consistent(r) && r.filters == DefaultFilters(Legacy)
    ensures ActiveFilterCount(r.filters, Legacy) == 0
    ensures forall b :: b in r.filtered <==> b in st.bikes && 0 <= b.price <= 100 * Legacy.upperPrice
  {
    ApplyFiltersAndSort(st.(filters := ClearAll(st.filters, Legacy)))
  }

  /** `handleClearFilter`: `priceRange` goes back to {0, 5000}, any other key
      to the empty string. */
  function HandleClearFilter(st: Store, filterType: string): (r: Store)
    ensures Consistent(r) && r.filters == ClearFilter(st.filters, filterType, Legacy)
    ensures r.(filtered := st.filtered, filters := st.filters) == st
  {
    ApplyFiltersAndSort(st.(filters := ClearFilter(st.filters, filterType, Legacy)))
  }

  /** The two clearing handlers agree on the type and brand keys; only
      `handleClearFilter` resets the price range. */
  lemma RemoveAndClearAgree(st: Store, filterType: string)
    ensures filterType != "priceRange" ==> HandleRemoveFilter(st, filterType) == HandleClearFilter(st, filterType)
    ensures PriceFilterActive(st.filters, Legacy) ==>
      PriceFilterActive(HandleRemoveFilter(st, "priceRange").filters, Legacy)
      && !PriceFilterActive(HandleClearFilter(st, "priceRange").filters, Legacy)
  {
  }

  /** `handleSortChange`. */
  function HandleSortChange(st: Store, value: string): (r: Store)
    ensures Consistent(r) && r.sortBy == value
    ensures r.(filtered := st.filtered, sortBy := st.sortBy) == st
    ensures ParseSortKey(value) == Unsorted ==> r.filtered == Select(st.bikes, st.filters)
  {
    ApplyFiltersAndSort(st.(sortBy := value))
  }

  /** `maxPrice`: the largest of the bikes' prices and 5000 whole units, in
      cents like the prices. */
  function MaxPrice(bikes: seq<Product>): (m: int)
    ensures m >= 100 * Legacy.upperPrice
    ensures forall b :: b in bikes ==> b.price <= m
    ensures m == 100 * Legacy.upperPrice || exists b :: b in bikes && b.price == m
  {
    if |bikes| == 0 then 100 * Legacy.upperPrice
    else
      var rest := MaxPrice(bikes[1..]);
      assert forall b :: b in bikes ==> b == bikes[0] || b in bikes[1..];
      if bikes[0].price > rest then bikes[0].price
      else
        assert forall b :: b in bikes[1..] ==> b in bikes;
        rest
  }

  // ---------------------------------------------------------------------------
  // Views

  /** `handlePopState`: the decision is the current store's. */
  function HandlePopState(st: Store, state: Option<StoreView.HistoryState>): (r: Store)
    ensures r.view == StoreView.DetailPage <==> state.Some? && state.value.view == "detail" && state.value.bikeId != ""
    ensures r.view == StoreView.DetailPage ==> r.selectedBikeId == state.value.bikeId
    ensures r.view == StoreView.StorePage ==> r.selectedBikeId == ""
    ensures r.(view := st.view, selectedBikeId := st.selectedBikeId) == st
  {
    if state.Some? && state.value.view == "detail" && state.value.bikeId != "" then
      st.(selectedBikeId := state.value.bikeId, view := StoreView.DetailPage)
    else
      st.(view := StoreView.StorePage, selectedBikeId := "")
  }

  /** Both storefronts react to a history entry the same way. */
  lemma PopStateAgrees(st: Store, cur: StoreView.Store, state: Option<StoreView.HistoryState>)
    ensures HandlePopState(st, state).view == StoreView.HandlePopState(cur, state).view
    ensures HandlePopState(st, state).selectedBikeId == StoreView.HandlePopState(cur, state).selectedBikeId
  {
  }

  /** `handleViewProductDetail` (the history push is left out). */
  function HandleViewProductDetail(st: Store, bikeId: string): (r: Store)
    ensures r.view == StoreView.DetailPage && r.selectedBikeId == bikeId
    ensures r.(view := st.view, selectedBikeId := st.selectedBikeId) == st
  {
    st.(selectedBikeId := bikeId, view := StoreView.DetailPage)
  }

  /** `handleBackToStore`. */
  function HandleBackToStore(st: Store): (r: Store)
    ensures r.view == StoreView.StorePage && r.selectedBikeId == ""
    ensures r.(view := st.view, selectedBikeId := st.selectedBikeId) == st
  {
    st.(view := StoreView.StorePage, selectedBikeId := "")
  }

  /** `selectedBike`: the first catalogue bike with the selected id. */
  function SelectedBike(st: Store): (r: Option<Product>)
    ensures st.selectedBikeId == "" ==> r.None?
    ensures r.Some? ==> r.value in st.bikes && r.value.id == st.selectedBikeId
    ensures r.Some? ==>
      exists i :: 0 <= i < |st.bikes| && st.bikes[i] == r.value && forall j :: 0 <= j < i ==> st.bikes[j].id != st.selectedBikeId
    ensures st.selectedBikeId != "" && r.None? ==> forall b :: b in st.bikes ==> b.id != st.selectedBikeId
  {
    if st.selectedBikeId == "" then None else FindFirst(st.bikes, st.selectedBikeId)
  }
}
