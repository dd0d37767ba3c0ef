/** The older cart store (bicycle-store/src/modules/my/cartStore/cartStore.js):
    the same Map of lines, but with no input validation, `Date.now()` as the
    cart id of a new line (a parameter `now` here, so two adds in the same
    millisecond share a key and the second overwrites the first), totals read
    straight from the lines on every call, and a catalogue lookup with `find`. */
module LegacyCartStore {
  import opened Common
  import opened Catalogue
  import opened CartLines

  /** Cart ids are millisecond timestamps. */
  type CartId = int
  type Line = CartLine<CartId>

  datatype Cart = Cart(lines: seq<Line>)

  /** A completed call: the new cart, its return value, and whether it saved
      and notified. */
  datatype Step<T> = Step(cart: Cart, value: T, saved: bool)

  predicate Valid(c: Cart) {
    UniqueIds(c.lines) && TotalsConsistent(c.lines)
  }

  /** `getTotal()`: the sum of the line totals. */
  function GetTotal(c: Cart): (t: int)
    ensures |c.lines| == 0 ==> t == 0
    ensures Valid(c) ==> t == SumBy(c.lines, ValueOf)
  {
    TotalIsValue(c.lines);
    SumBy(c.lines, LineTotalOf)
  }

  /** `getCount()`: the sum of the quantities. */
  function GetCount(c: Cart): (n: int)
    ensures |c.lines| == 0 ==> n == 0
    ensures (forall i :: 0 <= i < |c.lines| ==> c.lines[i].quantity >= 1) ==> n >= |c.lines|
  {
    CountAtLeastLines(c.lines);
    SumBy(c.lines, QuantityOf)
  }

  /** `updateQuantity(cartId, quantity)`: no check for a negative quantity;
      0 removes the line, anything else sets it; an unknown id changes
      nothing and saves nothing. */
  function UpdateQuantity(c: Cart, cartId: CartId, quantity: int): (r: Step<()>)
    ensures r.saved <==> cartId in Ids(c.lines)
    ensures cartId !in Ids(c.lines) ==> r.cart == c
    ensures cartId in Ids(c.lines) && quantity == 0 ==>
      && Ids(r.cart.lines) == Ids(c.lines) - {cartId}
      && (forall l :: l in r.cart.lines ==> l in c.lines)
      && (forall l :: l in c.lines && l.cartId != cartId ==> l in r.cart.lines)
    ensures cartId in Ids(c.lines) && quantity != 0 ==>
      var k := IndexOfId(c.lines, cartId).value;
      && |r.cart.lines| == |c.lines|
      && r.cart.lines[k].quantity == quantity
      && r.cart.lines[k].lineTotal == c.lines[k].product.price * quantity
      && (forall i :: 0 <= i < |c.lines| && i != k ==> r.cart.lines[i] == c.lines[i])
    ensures Valid(c) ==> Valid(r.cart)
  {
    match IndexOfId(c.lines, cartId)
    case None => Step(c, (), false)
    case Some(k) =>
      if quantity == 0 then
        DeleteKeepsInvariants(c.lines, cartId);
        var lines := Delete(c.lines, cartId);
        assert forall l :: l in lines ==> l in c.lines by {
          forall l | l in lines ensures l in c.lines {
            var i :| 0 <= i < |lines| && lines[i] == l;
          }
        }
        assert forall l :: l in c.lines && l.cartId != cartId ==> l in lines by {
          forall l | l in c.lines && l.cartId != cartId ensures l in lines {
            var i :| 0 <= i < |c.lines| && c.lines[i] == l;
          }
        }
        Step(Cart(lines), (), true)
      else
        Step(Cart(SetQuantity(c.lines, k, quantity)), (), true)
  }

  /** `addItem(bike, selectedColor, quantity)` at time `now`: a repeated
      (product, colour) pair adds to the existing line and returns its id;
      otherwise a line is `set` under `now`, with no validation at all. */
  function AddItem(c: Cart, bike: Product, color: string, quantity: int, now: CartId): (r: Step<CartId>)
    ensures r.saved
    ensures FindExisting(c.lines, bike.id, color).None? ==>
      var line := CartLine(bike, now, color, quantity, bike.price * quantity, ColorImage(bike, color, CardPlaceholder));
      && r.value == now
      && r.cart.lines == Put(c.lines, line)
      && (now !in Ids(c.lines) ==> r.cart.lines == c.lines + [line])
    ensures FindExisting(c.lines, bike.id, color).Some? ==>
      var k := FindExisting(c.lines, bike.id, color).value;
      && r.value == c.lines[k].cartId
      && (Valid(c) && c.lines[k].quantity + quantity != 0 ==>
            && |r.cart.lines| == |c.lines|
            && r.cart.lines[k].quantity == c.lines[k].quantity + quantity)
      && (Valid(c) && c.lines[k].quantity + quantity == 0 ==>
            Ids(r.cart.lines) == Ids(c.lines) - {c.lines[k].cartId})
    ensures Valid(c) ==> Valid(r.cart)
  {
    match FindExisting(c.lines, bike.id, color)
    case Some(k) =>
      var e := c.lines[k];
      assert e.cartId in Ids(c.lines);
      assert Valid(c) ==> IndexOfId(c.lines, e.cartId) == Some(k) by {
        if Valid(c) {
          UniqueIndex(c.lines, k);
        }
      }
      var step := UpdateQuantity(c, e.cartId, e.quantity + quantity);
      Step(step.cart, e.cartId, true)
    case None =>
      var line := CartLine(bike, now, color, quantity, bike.price * quantity, ColorImage(bike, color, CardPlaceholder));
      Step(Cart(Put(c.lines, line)), now, true)
  }

  /** `refreshImages(bikes)`: re-resolves the image of every line whose
      product `find` locates (the first product with that id), and saves and
      notifies only when some image changed. There is no guard for an empty
      list, which finds nothing and so changes nothing. */
  function RefreshImages(c: Cart, bikes: seq<Product>): (r: Step<()>)
    ensures |r.cart.lines| == |c.lines|
    ensures forall i :: 0 <= i < |c.lines| ==> r.cart.lines[i].(image := c.lines[i].image) == c.lines[i]
    ensures forall i :: 0 <= i < |c.lines| ==>
      match FindFirst(bikes, c.lines[i].product.id)
      case None => r.cart.lines[i] == c.lines[i]
      case Some(b) => r.cart.lines[i].image == ColorImage(b, c.lines[i].selectedColor, CardPlaceholder)
    ensures r.saved <==> SomeImageChanges(c.lines, bikes, false)
    ensures r.saved <==> r.cart != c
    ensures |bikes| == 0 ==> r == Step(c, (), false)
    ensures Valid(c) ==> Valid(r.cart)
  {
    var lines := RefreshLines(c.lines, bikes, false);
    RefreshChangesIffSomeImageChanges(c.lines, bikes, false);
    RefreshKeepsInvariants(c.lines, bikes, false);
    assert |bikes| == 0 ==> lines == c.lines;
    var updated := lines != c.lines;
    Step(if updated then Cart(lines) else c, (), updated)
  }

  /** The Map `loadFromStorage` builds: every stored entry is `set` under its
      cart id with its total recomputed, without validation. */
  function LoadLines(entries: seq<Line>): (r: seq<Line>)
    ensures UniqueIds(r) && TotalsConsistent(r)
    ensures Ids(r) == Ids(entries)
    ensures forall l :: l in r ==> exists i :: 0 <= i < |entries| && l == Recomputed(entries[i])
    decreases |entries|
  {
    if |entries| == 0 then []
    else
      var init := entries[..|entries| - 1];
      var e := entries[|entries| - 1];
      var prev := LoadLines(init);
      assert entries == init + [e];
      IdsSnoc(init, e);
      PutKeepsTotals(prev, Recomputed(e));
      PutMembers(prev, Recomputed(e));
      var r := Put(prev, Recomputed(e));
      assert forall l :: l in r ==> exists i :: 0 <= i < |entries| && l == Recomputed(entries[i]) by {
        forall l | l in r ensures exists i :: 0 <= i < |entries| && l == Recomputed(entries[i]) {
          if l == Recomputed(e) {
            assert l == Recomputed(entries[|entries| - 1]);
          } else {
            var i :| 0 <= i < |init| && l == Recomputed(init[i]);
            assert entries[i] == init[i];
          }
        }
      }
      r
  }

  /** `loadFromStorage()` on the empty store: `None` is a missing key, a
      parse failure, or a parsed value without `forEach`. */
  function LoadFromStorage(stored: Option<seq<Line>>): (c: Cart)
    ensures Valid(c)
    ensures stored.None? ==> c.lines == []
    ensures stored.Some? ==> Ids(c.lines) == Ids(stored.value)
    ensures stored.Some? ==> forall l :: l in c.lines ==>
      exists i :: 0 <= i < |stored.value| && l == Recomputed(stored.value[i])
  {
    match stored
    case None => Cart([])
    case Some(entries) => Cart(LoadLines(entries))
  }

  /** Loading one more entry `set`s it over the lines loaded before it. */
  lemma LoadLinesSnoc(entries: seq<Line>)
    requires |entries| > 0
    ensures LoadLines(entries) == Put(LoadLines(entries[..|entries| - 1]), Recomputed(entries[|entries| - 1]))
  {
  }

  /** `Map.set` overwrites: of the stored entries sharing a cart id, the last
      one is the line that is loaded, with its total recomputed. */
  lemma {:induction false} LoadKeepsLastEntry(entries: seq<Line>, i: nat)
    requires i < |entries|
    requires forall j :: i < j < |entries| ==> entries[j].cartId != entries[i].cartId
    ensures Recomputed(entries[i]) in LoadLines(entries)
    decreases |entries|
  {
    var init := entries[..|entries| - 1];
    var e := Recomputed(entries[|entries| - 1]);
    var prev := LoadLines(init);
    var l := Recomputed(entries[i]);
    LoadLinesSnoc(entries);
    if i < |entries| - 1 {
      assert init[i] == entries[i];
      assert forall j :: i < j < |init| ==> init[j].cartId != init[i].cartId by {
        forall j | i < j < |init| ensures init[j].cartId != init[i].cartId {
          assert init[j] == entries[j];
        }
      }
      LoadKeepsLastEntry(init, i);
      PutKeepsOther(prev, e, l);
    }
  }

  /** A line under another cart id survives a `set`. */
  lemma PutKeepsOther(lines: seq<Line>, x: Line, l: Line)
    requires l in lines && l.cartId != x.cartId
    ensures l in Put(lines, x)
  {
    var j :| 0 <= j < |lines| && lines[j] == l;
    assert Put(lines, x)[j] == l;
  }

  /** Reading and writing through the older store, the count and the total
      are sums over the lines: two runs of lines laid end to end add up. */
  lemma CountAndTotalAdd(a: seq<Line>, b: seq<Line>)
    ensures GetCount(Cart(a + b)) == GetCount(Cart(a)) + GetCount(Cart(b))
    ensures GetTotal(Cart(a + b)) == GetTotal(Cart(a)) + GetTotal(Cart(b))
  {
    SumByConcat(a, b, QuantityOf);
    SumByConcat(a, b, LineTotalOf);
  }

  /** A single line counts its quantity and totals its line total. */
  lemma CountAndTotalOfOneLine(l: Line)
    ensures GetCount(Cart([l])) == l.quantity && GetTotal(Cart([l])) == l.lineTotal
  {
    assert [l][1..] == [];
    assert SumBy([l], QuantityOf) == QuantityOf(l) + SumBy([l][1..], QuantityOf);
    assert SumBy([l], LineTotalOf) == LineTotalOf(l) + SumBy([l][1..], LineTotalOf);
  }

  /** Setting a present line to a non-zero quantity (negative included, as
      nothing checks it) moves the count by the change in quantity and the
      total by the line price times that change. */
  lemma UpdateQuantityTotals(c: Cart, cartId: CartId, quantity: int)
    requires Valid(c) && cartId in Ids(c.lines) && quantity != 0
    ensures var k := IndexOfId(c.lines, cartId).value;
      var c' := UpdateQuantity(c, cartId, quantity).cart;
      && GetTotal(c') == GetTotal(c) + c.lines[k].product.price * (quantity - c.lines[k].quantity)
      && GetCount(c') == GetCount(c) + (quantity - c.lines[k].quantity)
  {
    var k := IndexOfId(c.lines, cartId).value;
    var l := c.lines[k];
    var l' := l.(quantity := quantity, lineTotal := l.product.price * quantity);
    var c' := UpdateQuantity(c, cartId, quantity).cart;
    assert c'.lines == c.lines[k := l'];
    SumByUpdate(c.lines, k, l', LineTotalOf);
    SumByUpdate(c.lines, k, l', QuantityOf);
    assert l.lineTotal == l.product.price * l.quantity;
    Distribute(l.product.price, l.quantity, quantity);
  }

  /** Setting a present line to 0 removes it and its contribution to both
      sums. */
  lemma RemoveLineTotals(c: Cart, cartId: CartId)
    requires Valid(c) && cartId in Ids(c.lines)
    ensures var k := IndexOfId(c.lines, cartId).value;
      var c' := UpdateQuantity(c, cartId, 0).cart;
      && cartId !in Ids(c'.lines)
      && GetTotal(c') == GetTotal(c) - c.lines[k].lineTotal
      && GetCount(c') == GetCount(c) - c.lines[k].quantity
  {
    var k := IndexOfId(c.lines, cartId).value;
    SumByDelete(c.lines, k, LineTotalOf);
    SumByDelete(c.lines, k, QuantityOf);
  }

  /** The totals read after every call are always the sums over the current
      lines: a fresh add under an unused timestamp raises them by exactly the
      new line's contribution. */
  lemma AddFreshTotals(c: Cart, bike: Product, color: string, quantity: int, now: CartId)
    requires FindExisting(c.lines, bike.id, color).None? && now !in Ids(c.lines)
    ensures var c' := AddItem(c, bike, color, quantity, now).cart;
      && GetTotal(c') == GetTotal(c) + bike.price * quantity
      && GetCount(c') == GetCount(c) + quantity
  {
    var line := CartLine(bike, now, color, quantity, bike.price * quantity, ColorImage(bike, color, CardPlaceholder));
    SumByConcat(c.lines, [line], LineTotalOf);
    SumByConcat(c.lines, [line], QuantityOf);
  }

  /** Without validation, a same-millisecond add of a different product
      replaces the earlier line instead of adding a second one. */
  lemma SameTimestampOverwrites(c: Cart, b1: Product, b2: Product, color: string, now: CartId)
    requires Valid(c) && now !in Ids(c.lines)
    requires FindExisting(c.lines, b1.id, color).None? && FindExisting(c.lines, b2.id, color).None?
    requires b1.id != b2.id
    ensures var c1 := AddItem(c, b1, color, 1, now).cart;
      var c2 := AddItem(c1, b2, color, 1, now).cart;
      && |c2.lines| == |c.lines| + 1
      && c2.lines[|c.lines|].product == b2
  {
    var c1 := AddItem(c, b1, color, 1, now).cart;
    assert c1.lines[|c.lines|].product == b1;
    assert FindExisting(c1.lines, b2.id, color).None? by {
      assert forall i :: 0 <= i < |c.lines| ==> c1.lines[i] == c.lines[i];
    }
    assert IndexOfId(c1.lines, now) == Some(|c.lines|) by {
      UniqueIndex(c1.lines, |c.lines|);
    }
  }
}
