/** The product card of the catalogue grid (src/modules/my/bikeCard/bikeCard.js)
    and its older version (bicycle-store/src/modules/my/bikeCard/bikeCard.js):
    a bike with a selected colour, the image for that colour, and the
    add-to-cart and view-detail events. */
module ProductCard {
  import opened Common
  import opened Catalogue
  import CartStore

  /** A card: the bike it shows and the colour picked on it. */
  datatype Card = Card(bike: Product, selectedColor: string)

  /** `connectedCallback`: both versions start on the first colour, or on no
      colour when the list is empty. */
  function Init(bike: Product): (c: Card)
    ensures c.bike == bike
    ensures |bike.colors| > 0 ==> c.selectedColor == bike.colors[0]
    ensures |bike.colors| == 0 ==> c.selectedColor == ""
  {
    Card(bike, InitialColor(bike))
  }

  /** `handleColorChange`. */
  function ColorChange(c: Card, value: string): (r: Card)
    ensures r.bike == c.bike && r.selectedColor == value
  {
    c.(selectedColor := value)
  }

  /** `currentImage` of the current card: the colour's entry (its first URL
      for a list), else the bike's image, else the placeholder. It is exactly
      the image the cart store records for a line added from this card. */
  function CurrentImage(c: Card): (r: Option<string>)
    ensures r == CartStore.GetColorImage(c.bike, c.selectedColor)
    ensures ColorEntry(c.bike, c.selectedColor).None? ==>
      r == Some(if c.bike.image != "" then c.bike.image else CardPlaceholder)
    ensures forall u :: ColorEntry(c.bike, c.selectedColor) == Some(Single(u)) ==> r == Some(u)
    ensures forall us :: ColorEntry(c.bike, c.selectedColor) == Some(Many(us)) && |us| > 0 ==> r == Some(us[0])
  {
    ColorImage(c.bike, c.selectedColor, CardPlaceholder)
  }

  /** `currentImage` of the older card: the colour's entry is consulted only
      when a colour is selected. */
  function LegacyCurrentImage(c: Card): (r: Option<string>)
    ensures c.selectedColor == "" ==> r == Some(DefaultImage(c.bike, CardPlaceholder))
    ensures c.selectedColor != "" ==> r == CurrentImage(c)
  {
    if c.selectedColor != "" then ColorImage(c.bike, c.selectedColor, CardPlaceholder)
    else Some(DefaultImage(c.bike, CardPlaceholder))
  }

  /** The two versions show the same image except when no colour is selected
      and the bike has a usable image entry under the empty colour name. */
  lemma LegacyImageAgreement(c: Card)
    ensures LegacyCurrentImage(c) != CurrentImage(c) ==>
      c.selectedColor == "" && ColorEntry(c.bike, "").Some?
  {
  }

  /** A bike where the two versions disagree: an entry under the empty colour
      name is shown by the current card only. */
  lemma LegacyImageDiffers()
    ensures var bike := Product("b", "", "", "", 1, None, true, [], map["" := Single("u")], "", None, None, None);
      LegacyCurrentImage(Card(bike, "")) == Some(CardPlaceholder)
      && CurrentImage(Card(bike, "")) == Some("u")
  {
    var bike := Product("b", "", "", "", 1, None, true, [], map["" := Single("u")], "", None, None, None);
    assert ColorEntry(bike, "") == Some(Single("u"));
  }

  /** `handleAddToCart`: always one unit of the bike in the selected colour. */
  function AddToCartDetail(c: Card): (e: AddToCart)
    ensures e.bikeId == c.bike.id && e.selectedColor == c.selectedColor && e.quantity == 1
  {
    AddToCart(c.bike.id, c.selectedColor, 1)
  }

  /** `handleKeyDown`: Enter and Space open the detail view (the event carries
      the bike id); any other key does nothing. */
  function KeyDown(c: Card, key: string): (r: Option<string>)
    ensures r.Some? <==> key == "Enter" || key == " "
    ensures r.Some? ==> r.value == c.bike.id
  {
    if ActivationKey(key) then Some(c.bike.id) else None
  }

  /** `colorOptions`. */
  function CardColorOptions(c: Card): (r: seq<ColorOption>)
    ensures |r| == |c.bike.colors|
    ensures forall i :: 0 <= i < |r| ==>
      r[i].value == c.bike.colors[i] && r[i].caption == Capitalize(c.bike.colors[i])
      && (r[i].selected <==> c.bike.colors[i] == c.selectedColor)
  {
    ColorOptions(c.bike, c.selectedColor)
  }

  /** A card fresh from `Init` on a bike with colours has exactly one
      selected colour option when the colours are distinct. */
  lemma InitialOptionSelected(bike: Product)
    requires |bike.colors| > 0 && NoDuplicates(bike.colors)
    ensures var r := CardColorOptions(Init(bike));
      r[0].selected && forall i :: 0 < i < |r| ==> !r[i].selected
  {
  }

  /** `stockBadgeClass`. */
  function StockBadgeClass(c: Card): (r: string)
    ensures r == "slds-badge slds-badge_lightest slds-theme_success" <==> c.bike.inStock
    ensures r == "slds-badge slds-badge_lightest slds-theme_error" <==> IsOutOfStock(c.bike)
  {
    "slds-badge slds-badge_lightest " + (if c.bike.inStock then "slds-theme_success" else "slds-theme_error")
  }

  /** `colorSelectId`: `color-select-` followed by the bike id, or by
      `default` when the id is empty. */
  function ColorSelectId(c: Card): (r: string)
    ensures |r| > 13 && r[..13] == "color-select-"
    ensures c.bike.id != "" ==> r[13..] == c.bike.id
    ensures c.bike.id == "" ==> r[13..] == "default"
  {
    "color-select-" + (if c.bike.id != "" then c.bike.id else "default")
  }
}
