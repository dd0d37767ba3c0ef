/** The cart summary panel (src/modules/my/cartSummary/cartSummary.js): it
    shows the cart store's lines and raises `update_cart` events carrying a
    cart id and a clamped quantity, which the storefront hands to
    `updateQuantity`. */
module CartSummary {
  import opened Common
  import opened CartLines
  import CartStore

  /** `MAX_QUANTITY` and `MIN_QUANTITY`. */
  const MaxQuantity: int := 10
  const MinQuantity: int := 1

  /** The `{ cartId, quantity }` detail of an `update_cart` event. The cart id
      is forwarded as the string the markup holds. */
  datatype UpdateCart = UpdateCart(cartId: string, quantity: int)

  /** The quantity `handleQuantityChange` sends for an input value: 0 stays 0
      (removal), anything that does not parse or is below 1 becomes 1, and a
      larger number is capped at 10. */
  function ClampQuantity(value: string): (q: int)
    ensures q == 0 || MinQuantity <= q <= MaxQuantity
    ensures q == 0 <==> ParseInt(value) == Some(0)
    ensures ParseInt(value).None? ==> q == MinQuantity
    ensures forall v :: ParseInt(value) == Some(v) && v < 0 ==> q == MinQuantity
    ensures forall v :: ParseInt(value) == Some(v) && MinQuantity <= v <= MaxQuantity ==> q == v
    ensures forall v :: ParseInt(value) == Some(v) && v > MaxQuantity ==> q == MaxQuantity
  {
    match ParseInt(value)
    case Some(v) =>
      if v == 0 then 0
      else if v < MinQuantity then MinQuantity
      else if v < MaxQuantity then v else MaxQuantity
    case None => MinQuantity
  }

  /** `handleQuantityChange`. */
  function QuantityChange(cartId: string, value: string): (e: UpdateCart)
    ensures e.cartId == cartId && e.quantity == ClampQuantity(value)
  {
    UpdateCart(cartId, ClampQuantity(value))
  }

  /** `handleRemoveItem`: quantity 0, which the store reads as removal. */
  function RemoveItem(cartId: string): (e: UpdateCart)
    ensures e.cartId == cartId && e.quantity == 0
  {
    UpdateCart(cartId, 0)
  }

  /** The store's response to an event of this panel. */
  function Deliver(c: CartStore.Cart, e: UpdateCart): Result<CartStore.Step<()>, CartStore.CartError> {
    CartStore.UpdateQuantity(c, e.cartId, e.quantity)
  }

  /** Every quantity the panel sends is one the store accepts: a quantity
      change never raises `NegativeQuantity`, leaves a valid cart valid, and
      either removes the line (0) or sets it to a value between 1 and 10. */
  lemma QuantityChangeAccepted(c: CartStore.Cart, cartId: string, value: string)
    ensures Deliver(c, QuantityChange(cartId, value)).Success?
    ensures CartStore.Valid(c) ==> CartStore.Valid(Deliver(c, QuantityChange(cartId, value)).value.cart)
    ensures cartId in Ids(c.lines) && ParseInt(value) != Some(0) ==>
      var k := IndexOfId(c.lines, cartId).value;
      var lines := Deliver(c, QuantityChange(cartId, value)).value.cart.lines;
      |lines| == |c.lines| && MinQuantity <= lines[k].quantity <= MaxQuantity
    ensures ParseInt(value) == Some(0) ==>
      Ids(Deliver(c, QuantityChange(cartId, value)).value.cart.lines) == Ids(c.lines) - {cartId}
  {
  }

  /** Removing through the panel drops exactly that line id. */
  lemma RemoveItemRemoves(c: CartStore.Cart, cartId: string)
    ensures Deliver(c, RemoveItem(cartId)).Success?
    ensures Ids(Deliver(c, RemoveItem(cartId)).value.cart.lines) == Ids(c.lines) - {cartId}
    ensures Deliver(c, RemoveItem(cartId)).value.saved <==> cartId in Ids(c.lines)
  {
  }

  /** `cartSummaryText`: `Cart (0)` with no lines, else the count the store
      reports. */
  function SummaryText(items: seq<CartStore.Line>, cartCount: int): (r: string)
    ensures |items| == 0 ==> r == "Cart (0)"
    ensures |items| > 0 ==> r == "Cart (" + IntToString(cartCount) + ")"
  {
    if IsEmpty(items) then "Cart (0)" else "Cart (" + IntToString(cartCount) + ")"
  }

  /** `isEmpty`. */
  predicate IsEmpty(items: seq<CartStore.Line>) {
    |items| == 0
  }

  /** The summary text of the store's own state shows the number of units in
      the cart, and shows 0 exactly when the cart has no lines, as long as
      every line holds at least one unit. */
  lemma SummaryTextOfState(c: CartStore.Cart)
    requires forall i :: 0 <= i < |c.lines| ==> c.lines[i].quantity >= 1
    ensures var s := CartStore.GetState(c);
      SummaryText(s.items, s.count) == "Cart (" + IntToString(s.count) + ")"
      && (s.count == 0 <==> |c.lines| == 0)
  {
  }

  /** The panel's open/closed state and the two getters driven by it. */
  datatype Panel = Panel(isExpanded: bool)

  /** `handleToggleCart`. */
  function ToggleCart(p: Panel): (r: Panel)
    ensures r.isExpanded == !p.isExpanded
  {
    Panel(!p.isExpanded)
  }

  /** Toggling twice restores the panel. */
  lemma ToggleTwice(p: Panel)
    ensures ToggleCart(ToggleCart(p)) == p
  {
  }

  /** `expandedClass`. */
  function ExpandedClass(p: Panel): (r: string)
    ensures r == "cart-content expanded" <==> p.isExpanded
    ensures r == "cart-content collapsed" <==> !p.isExpanded
  {
    if p.isExpanded then "cart-content expanded" else "cart-content collapsed"
  }

  /** `toggleButtonText`: a down arrow when open, an up arrow when closed. */
  function ToggleButtonText(p: Panel): (r: string)
    ensures r == "▼" <==> p.isExpanded
    ensures r == "▲" <==> !p.isExpanded
  {
    if p.isExpanded then "▼" else "▲"
  }

  /** A line as the panel renders it: the line plus the quantity input's id
      and bounds (the currency strings are left out). */
  datatype FormattedItem = FormattedItem(line: CartStore.Line, quantityId: string, minQuantity: int, maxQuantity: int)

  /** The id of a line's quantity input: `qty-` followed by the cart id. */
  function QuantityId(cartId: string): (r: string)
    ensures |r| == 4 + |cartId| && r[..4] == "qty-" && r[4..] == cartId
  {
    "qty-" + cartId
  }

  /** Different cart ids give different input ids. */
  lemma QuantityIdInjective(a: string, b: string)
    ensures QuantityId(a) == QuantityId(b) <==> a == b
  {
    if QuantityId(a) == QuantityId(b) {
      assert a == QuantityId(a)[4..];
    }
  }

  /** `cartItemsWithFormatting`: every line in order, each with its input id
      and the bounds 0 (removal) to 10. */
  function FormatItems(items: seq<CartStore.Line>): (r: seq<FormattedItem>)
    ensures |r| == |items|
    ensures forall i :: 0 <= i < |r| ==>
      && r[i].line == items[i]
      && r[i].quantityId == QuantityId(items[i].cartId)
      && r[i].minQuantity == 0 && r[i].maxQuantity == MaxQuantity
  {
    seq(|items|, i requires 0 <= i < |items| => FormattedItem(items[i], QuantityId(items[i].cartId), 0, MaxQuantity))
  }

  /** In a valid cart the rendered inputs have distinct ids. */
  lemma FormattedIdsDistinct(c: CartStore.Cart)
    requires UniqueIds(c.lines)
    ensures var r := FormatItems(c.lines);
      forall i, j :: 0 <= i < j < |r| ==> r[i].quantityId != r[j].quantityId
  {
    var r := FormatItems(c.lines);
    forall i, j | 0 <= i < j < |r|
      ensures r[i].quantityId != r[j].quantityId
    {
      QuantityIdInjective(c.lines[i].cartId, c.lines[j].cartId);
    }
  }

  /** Every clamped quantity lies within the rendered input's bounds. */
  lemma ClampWithinInputBounds(items: seq<CartStore.Line>, i: nat, value: string)
    requires i < |items|
    ensures var f := FormatItems(items)[i];
      f.minQuantity <= ClampQuantity(value) <= f.maxQuantity
  {
  }
}
