/** The current cart store (src/modules/my/cartStore/cartStore.js): a Map of
    cart lines keyed by a generated cart id, with validated adds that merge a
    repeated (product, colour) pair, quantity updates where 0 removes, derived
    totals, image refresh against a reloaded catalogue, and validated
    rehydration from storage.

    Each mutation returns the new cart together with `saved`: the source saves
    to storage and notifies every listener together, on exactly the calls that
    change the Map, so one flag stands for both. A thrown error is `Failure`,
    and the caller keeps its old cart. The id generator is a parameter
    (`newId`); the derived-state cache is modelled as eager recomputation. */
module CartStore {
  import opened Common
  import opened Catalogue
  import opened CartLines

  type CartId = string
  type Line = CartLine<CartId>

  /** The store's Map, in insertion order. */
  datatype Cart = Cart(lines: seq<Line>)

  const Empty: Cart := Cart([])

  /** The errors `addItem` and `updateQuantity` throw. */
  datatype CartError = InvalidItem | NegativeQuantity

  /** A completed mutation: the new cart, the call's return value, and whether
      the cart was saved and listeners notified. */
  datatype Step<T> = Step(cart: Cart, value: T, saved: bool)

  /** What the store keeps true: one line per id, totals recomputed. */
  predicate Valid(c: Cart) {
    UniqueIds(c.lines) && TotalsConsistent(c.lines)
  }

  /** The snapshot `_getState` derives and listeners receive. */
  datatype CartState = CartState(items: seq<Line>, total: int, count: int)

  /** `_getState()`: the lines in insertion order with the sum of the line
      totals and the sum of the quantities. */
  function GetState(c: Cart): (s: CartState)
    ensures s.items == c.lines
    ensures |c.lines| == 0 ==> s.total == 0 && s.count == 0
    ensures Valid(c) ==> s.total == SumBy(c.lines, ValueOf)
    ensures (forall i :: 0 <= i < |c.lines| ==> c.lines[i].quantity >= 1) ==> s.count >= |c.lines|
  {
    TotalIsValue(c.lines);
    CountAtLeastLines(c.lines);
    CartState(c.lines, SumBy(c.lines, LineTotalOf), SumBy(c.lines, QuantityOf))
  }

  /** `_findExistingItem`: the first line, in insertion order, holding the
      same product in the same colour. */
  function FindExistingItem(c: Cart, bikeId: string, color: string): (r: Option<Line>)
    ensures r.Some? ==> r.value in c.lines && r.value.product.id == bikeId && r.value.selectedColor == color
    ensures r.None? <==> forall l :: l in c.lines ==> !(l.product.id == bikeId && l.selectedColor == color)
  {
    match FindExisting(c.lines, bikeId, color)
    case None => None
    case Some(k) => Some(c.lines[k])
  }

  /** `_getColorImage`: the colour entry (first URL of a list), else the
      product image, else the 300x200 placeholder. */
  function GetColorImage(bike: Product, color: string): (r: Option<string>)
    ensures ColorEntry(bike, color).None? ==> r.Some? && r.value != "" && (r.value == bike.image || r.value == CardPlaceholder)
    ensures r.Some? && ColorEntry(bike, color).Some? ==>
      match ColorEntry(bike, color).value
      case Single(u) => r.value == u
      case Many(urls) => |urls| > 0 && r.value == urls[0]
  {
    ColorImage(bike, color, CardPlaceholder)
  }

  /** `updateQuantity(cartId, quantity)`. */
  function UpdateQuantity(c: Cart, cartId: CartId, quantity: int): (r: Result<Step<()>, CartError>)
    ensures quantity < 0 <==> r.Failure?
    ensures r.Failure? ==> r.error == NegativeQuantity
    ensures r.Success? ==> (r.value.saved <==> cartId in Ids(c.lines))
    ensures r.Success? && cartId !in Ids(c.lines) ==> r.value.cart == c
    ensures r.Success? && quantity == 0 ==>
      && Ids(r.value.cart.lines) == Ids(c.lines) - {cartId}
      && (forall l :: l in r.value.cart.lines ==> l in c.lines)
    ensures r.Success? && quantity > 0 && cartId in Ids(c.lines) ==>
      var k := IndexOfId(c.lines, cartId).value;
      && |r.value.cart.lines| == |c.lines|
      && r.value.cart.lines[k].quantity == quantity
      && r.value.cart.lines[k].lineTotal == c.lines[k].product.price * quantity
      && (forall i :: 0 <= i < |c.lines| && i != k ==> r.value.cart.lines[i] == c.lines[i])
    ensures r.Success? && Valid(c) ==> Valid(r.value.cart)
  {
    if quantity < 0 then Failure(NegativeQuantity)
    else
      match IndexOfId(c.lines, cartId)
      case None => Success(Step(c, (), false))
      case Some(k) =>
        if quantity == 0 then
          DeleteKeepsInvariants(c.lines, cartId);
          Success(Step(Cart(Delete(c.lines, cartId)), (), true))
        else
          Success(Step(Cart(SetQuantity(c.lines, k, quantity)), (), true))
  }

  /** The validation at the top of `addItem`: a missing or falsy id or price
      (so a price of 0 too), or a quantity that is not positive. */
  predicate RejectedItem(bike: Product, quantity: int) {
    bike.id == "" || bike.price == 0 || quantity <= 0
  }

  /** The line a fresh add stores. */
  function NewLine(bike: Product, color: string, quantity: int, cartId: CartId): (l: Line)
    ensures l.product == bike && l.cartId == cartId && l.selectedColor == color
    ensures l.quantity == quantity && l.lineTotal == bike.price * quantity
    ensures l.image == GetColorImage(bike, color)
  {
    CartLine(bike, cartId, color, quantity, bike.price * quantity, GetColorImage(bike, color))
  }

  /** `addItem(bike, selectedColor, quantity)`, with `newId` the id the
      generator would produce. Returns the line's cart id. */
  function AddItem(c: Cart, bike: Product, color: string, quantity: int, newId: CartId): (r: Result<Step<CartId>, CartError>)
    ensures RejectedItem(bike, quantity) ==> r == Failure(InvalidItem)
    ensures !RejectedItem(bike, quantity) && FindExistingItem(c, bike.id, color).None? ==>
      && r.Success? && r.value.value == newId && r.value.saved
      && (newId !in Ids(c.lines) ==>
            r.value.cart.lines == c.lines + [NewLine(bike, color, quantity, newId)])
    ensures !RejectedItem(bike, quantity) && FindExistingItem(c, bike.id, color).Some? ==>
      var e := FindExistingItem(c, bike.id, color).value;
      && (r.Success? <==> e.quantity + quantity >= 0)
      && (r.Success? ==> r.value.value == e.cartId && r.value.saved)
      && (r.Success? && Valid(c) && e.quantity + quantity > 0 ==>
            && |r.value.cart.lines| == |c.lines|
            && r.value.cart.lines[IndexOfId(c.lines, e.cartId).value].quantity == e.quantity + quantity)
    ensures r.Success? && Valid(c) ==> Valid(r.value.cart)
  {
    if RejectedItem(bike, quantity) then Failure(InvalidItem)
    else
      match FindExisting(c.lines, bike.id, color)
      case Some(k) =>
        var e := c.lines[k];
        assert e.cartId in Ids(c.lines);
        (match UpdateQuantity(c, e.cartId, e.quantity + quantity)
         case Failure(err) => Failure(err)
         case Success(step) => Success(Step(step.cart, e.cartId, true)))
      case None =>
        var line := NewLine(bike, color, quantity, newId);
        Success(Step(Cart(Put(c.lines, line)), newId, true))
  }

  /** `refreshImages(bikes)`; `None` is an argument that is not an array. */
  function RefreshImages(c: Cart, bikes: Option<seq<Product>>): (r: Step<()>)
    ensures bikes.None? || bikes == Some([]) ==> r == Step(c, (), false)
    ensures |r.cart.lines| == |c.lines|
    ensures forall i :: 0 <= i < |c.lines| ==> r.cart.lines[i].(image := c.lines[i].image) == c.lines[i]
    ensures bikes.Some? ==> forall i :: 0 <= i < |c.lines| ==>
      match FindLast(bikes.value, c.lines[i].product.id)
      case None => r.cart.lines[i] == c.lines[i]
      case Some(b) => r.cart.lines[i].image == GetColorImage(b, c.lines[i].selectedColor)
    ensures r.saved <==> bikes.Some? && SomeImageChanges(c.lines, bikes.value, true)
    ensures r.saved <==> r.cart != c
    ensures Valid(c) ==> Valid(r.cart)
  {
    match bikes
    case None => Step(c, (), false)
    case Some(bs) =>
      if |bs| == 0 then Step(c, (), false)
      else
        var lines := RefreshLines(c.lines, bs, true);
        RefreshChangesIffSomeImageChanges(c.lines, bs, true);
        RefreshKeepsInvariants(c.lines, bs, true);
        var updated := lines != c.lines;
        Step(if updated then Cart(lines) else c, (), updated)
  }

  // ---------------------------------------------------------------------------
  // Rehydration

  /** The check `loadFromStorage` applies to each stored entry: a truthy cart
      id, price and quantity (a negative quantity is truthy and passes). */
  predicate Loadable(entry: Line) {
    entry.cartId != "" && entry.product.price != 0 && entry.quantity != 0
  }

  /** The Map built by `loadFromStorage` from the entries, in order: each
      accepted entry is `set` under its cart id with its total recomputed. */
  function LoadLines(entries: seq<Line>): (r: seq<Line>)
    ensures UniqueIds(r) && TotalsConsistent(r)
    ensures Ids(r) == set i | 0 <= i < |entries| && Loadable(entries[i]) :: entries[i].cartId
    ensures forall l :: l in r ==> exists i :: 0 <= i < |entries| && Loadable(entries[i]) && l == Recomputed(entries[i])
    decreases |entries|
  {
    if |entries| == 0 then []
    else
      var init := entries[..|entries| - 1];
      var e := entries[|entries| - 1];
      var prev := LoadLines(init);
      assert forall i :: 0 <= i < |init| ==> entries[i] == init[i];
      if Loadable(e) then
        var r := Put(prev, Recomputed(e));
        assert forall l :: l in r ==> l in prev || l == Recomputed(e);
        r
      else prev
  }

  /** `loadFromStorage()` run by the constructor on an empty store: `None`
      stands for a missing key, a parse failure or a value that is not an
      array, all of which leave the cart empty. */
  function LoadFromStorage(stored: Option<seq<Line>>): (c: Cart)
    ensures Valid(c)
    ensures stored.None? ==> c == Empty
    ensures stored.Some? ==> forall l :: l in c.lines ==>
      exists i :: 0 <= i < |stored.value| && Loadable(stored.value[i]) && l == Recomputed(stored.value[i])
    ensures stored.Some? ==> forall i :: 0 <= i < |stored.value| && Loadable(stored.value[i]) ==>
      stored.value[i].cartId in Ids(c.lines)
  {
    match stored
    case None => Empty
    case Some(entries) => Cart(LoadLines(entries))
  }

  /** A cart every line of which passes the load check. */
  predicate Persistable(c: Cart) {
    Valid(c) && forall i :: 0 <= i < |c.lines| ==> Loadable(c.lines[i])
  }

  /** Saving the items and loading them back restores the same cart. */
  lemma {:induction false} SaveLoadRoundTrip(c: Cart)
    requires Persistable(c)
    ensures LoadFromStorage(Some(GetState(c).items)) == c
    ensures GetState(LoadFromStorage(Some(GetState(c).items))) == GetState(c)
  {
    LoadLinesIdentity(c.lines);
  }

  lemma {:induction false} LoadLinesIdentity(lines: seq<Line>)
    requires UniqueIds(lines) && TotalsConsistent(lines)
    requires forall i :: 0 <= i < |lines| ==> Loadable(lines[i])
    ensures LoadLines(lines) == lines
    decreases |lines|
  {
    if |lines| > 0 {
      var init := lines[..|lines| - 1];
      var e := lines[|lines| - 1];
      assert lines == init + [e];
      LoadLinesIdentity(init);
      assert e.cartId !in Ids(init) by {
        assert forall i :: 0 <= i < |init| ==> init[i].cartId == lines[i].cartId;
      }
      assert Recomputed(e) == e;
    }
  }

  // ---------------------------------------------------------------------------
  // Totals across mutations

  /** A fresh add under an unused id raises the total by price times quantity
      and the count by the quantity. */
  lemma AddFreshTotals(c: Cart, bike: Product, color: string, quantity: int, newId: CartId)
    requires Valid(c)
    requires !RejectedItem(bike, quantity) && FindExistingItem(c, bike.id, color).None?
    requires newId !in Ids(c.lines)
    ensures AddItem(c, bike, color, quantity, newId).Success?
    ensures var c' := AddItem(c, bike, color, quantity, newId).value.cart;
      && GetState(c').total == GetState(c).total + bike.price * quantity
      && GetState(c').count == GetState(c).count + quantity
      && |c'.lines| == |c.lines| + 1
  {
    var line := NewLine(bike, color, quantity, newId);
    SumByConcat(c.lines, [line], LineTotalOf);
    SumByConcat(c.lines, [line], QuantityOf);
  }

  /** Setting a present line to a positive quantity changes the total by the
      line price times the quantity difference. */
  lemma UpdateTotals(c: Cart, cartId: CartId, quantity: int)
    requires Valid(c) && cartId in Ids(c.lines) && quantity > 0
    ensures var k := IndexOfId(c.lines, cartId).value;
      var c' := UpdateQuantity(c, cartId, quantity).value.cart;
      && GetState(c').total == GetState(c).total + c.lines[k].product.price * (quantity - c.lines[k].quantity)
      && GetState(c').count == GetState(c).count + (quantity - c.lines[k].quantity)
  {
    var k := IndexOfId(c.lines, cartId).value;
    var l := c.lines[k];
    var l' := l.(quantity := quantity, lineTotal := l.product.price * quantity);
    var c' := UpdateQuantity(c, cartId, quantity).value.cart;
    assert c'.lines == c.lines[k := l'];
    SumByUpdate(c.lines, k, l', LineTotalOf);
    SumByUpdate(c.lines, k, l', QuantityOf);
    assert l.lineTotal == l.product.price * l.quantity;
    Distribute(l.product.price, l.quantity, quantity);
  }

  /** Updating to 0 removes the line and its contribution to both sums. */
  lemma RemoveTotals(c: Cart, cartId: CartId)
    requires Valid(c) && cartId in Ids(c.lines)
    ensures var k := IndexOfId(c.lines, cartId).value;
      var c' := UpdateQuantity(c, cartId, 0).value.cart;
      && cartId !in Ids(c'.lines)
      && GetState(c').total == GetState(c).total - c.lines[k].lineTotal
      && GetState(c').count == GetState(c).count - c.lines[k].quantity
  {
    var k := IndexOfId(c.lines, cartId).value;
    SumByDelete(c.lines, k, LineTotalOf);
    SumByDelete(c.lines, k, QuantityOf);
  }

  /** Adding the same product and colour twice leaves one line holding both
      quantities, under the cart id of the first add. */
  lemma AddTwiceMerges(c: Cart, bike: Product, color: string, q1: int, q2: int, id1: CartId, id2: CartId)
    requires Valid(c) && !RejectedItem(bike, q1) && !RejectedItem(bike, q2)
    requires FindExistingItem(c, bike.id, color).None? && id1 !in Ids(c.lines)
    ensures AddItem(c, bike, color, q1, id1).Success?
    ensures var s1 := AddItem(c, bike, color, q1, id1).value;
      var r2 := AddItem(s1.cart, bike, color, q2, id2);
      && r2.Success? && r2.value.value == id1
      && |r2.value.cart.lines| == |c.lines| + 1
      && r2.value.cart.lines[|c.lines|].quantity == q1 + q2
      && r2.value.cart.lines[|c.lines|].lineTotal == bike.price * (q1 + q2)
  {
    FirstAddAppends(c, bike, color, q1, id1);
    var s1 := AddItem(c, bike, color, q1, id1).value;
    AddMergesInto(s1.cart, bike, color, q2, |c.lines|, id2);
  }

  /** A first add of a product and colour appends its line at the end, where
      both lookups find it. */
  lemma FirstAddAppends(c: Cart, bike: Product, color: string, q: int, id: CartId)
    requires Valid(c) && !RejectedItem(bike, q)
    requires FindExistingItem(c, bike.id, color).None? && id !in Ids(c.lines)
    ensures AddItem(c, bike, color, q, id).Success?
    ensures var c1 := AddItem(c, bike, color, q, id).value.cart;
      && Valid(c1)
      && c1.lines == c.lines + [NewLine(bike, color, q, id)]
      && FindExisting(c1.lines, bike.id, color) == Some(|c.lines|)
  {
    var lines1 := AddItem(c, bike, color, q, id).value.cart.lines;
    assert lines1[|c.lines|] == NewLine(bike, color, q, id);
    assert forall i :: 0 <= i < |c.lines| ==> lines1[i] == c.lines[i];
  }

  /** An add that finds the existing line `k` adds its quantity to that
      line, in place, under that line's cart id. */
  lemma AddMergesInto(c: Cart, bike: Product, color: string, q: int, k: nat, newId: CartId)
    requires Valid(c) && !RejectedItem(bike, q)
    requires FindExisting(c.lines, bike.id, color) == Some(k) && c.lines[k].quantity >= 0
    ensures var r := AddItem(c, bike, color, q, newId);
      && r.Success? && r.value.value == c.lines[k].cartId
      && |r.value.cart.lines| == |c.lines|
      && r.value.cart.lines[k].quantity == c.lines[k].quantity + q
      && r.value.cart.lines[k].lineTotal == c.lines[k].product.price * (c.lines[k].quantity + q)
  {
    var e := c.lines[k];
    UniqueIndex(c.lines, k);
    assert IndexOfId(c.lines, e.cartId) == Some(k);
  }
}
