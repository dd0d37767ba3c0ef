/** The product record every component works on, and the colour/image
    resolution rules the cart stores and the product card share. */
module Catalogue {
  import opened Common

  /** One entry of a product's per-colour image map: a single URL or a list of
      URLs (the detail view shows the list as a gallery). */
  datatype ImageEntry = Single(url: string) | Many(urls: seq<string>)

  /** A bicycle as loaded from the catalogue. Prices are integer cents; a
      missing string field is the empty string (both are falsy in JavaScript);
      `releaseDate` is a yyyymmdd number, which orders like the date itself. */
  datatype Product = Product(
    id: string,
    name: string,
    bikeType: string,
    brand: string,
    price: int,
    originalPrice: Option<int>,
    inStock: bool,
    colors: seq<string>,
    images: map<string, ImageEntry>,
    image: string,
    popularity: Option<int>,
    releaseDate: Option<int>,
    frameSize: Option<seq<string>>
  )

  /** The placeholder the cart stores and the product cards fall back to. */
  const CardPlaceholder: string := "https://placehold.co/300x200"

  /** The placeholder the detail views fall back to. */
  const DetailPlaceholder: string := "https://placehold.co/600x400"

  /** JavaScript truthiness of an image entry: an empty URL is falsy, while any
      array, even an empty one, is truthy. */
  predicate EntryTruthy(e: ImageEntry) {
    match e
    case Single(u) => u != ""
    case Many(_) => true
  }

  /** The colour entry that `bike.images[color]` yields when it is truthy. */
  function ColorEntry(bike: Product, color: string): (r: Option<ImageEntry>)
    ensures r.Some? <==> color in bike.images && EntryTruthy(bike.images[color])
    ensures r.Some? ==> r.value == bike.images[color]
  {
    if color in bike.images && EntryTruthy(bike.images[color]) then Some(bike.images[color])
    else None
  }

  /** `bike.image || placeholder`. */
  function DefaultImage(bike: Product, placeholder: string): (r: string)
    ensures r == bike.image || r == placeholder
    ensures placeholder != "" ==> r != ""
  {
    if bike.image != "" then bike.image else placeholder
  }

  /** The image shown for `bike` in `color`: the colour entry (its first URL
      when it is a list), else the product's own image, else the placeholder.
      `None` is JavaScript's `undefined`, produced by an empty URL list. */
  function ColorImage(bike: Product, color: string, placeholder: string): (r: Option<string>)
    ensures r.None? <==> ColorEntry(bike, color) == Some(Many([]))
    ensures ColorEntry(bike, color).None? ==> r == Some(DefaultImage(bike, placeholder))
    ensures ColorEntry(bike, color).Some? && ColorEntry(bike, color).value.Single?
      ==> r == Some(ColorEntry(bike, color).value.url)
    ensures (ColorEntry(bike, color).Some? && ColorEntry(bike, color).value.Many?
             && |ColorEntry(bike, color).value.urls| > 0)
      ==> r == Some(ColorEntry(bike, color).value.urls[0])
  {
    match ColorEntry(bike, color)
    case None => Some(DefaultImage(bike, placeholder))
    case Some(Single(u)) => Some(u)
    case Some(Many(urls)) => if |urls| > 0 then Some(urls[0]) else None
  }

  /** `bike?.colors?.[0] || ''`: the colour a card or detail view starts with. */
  function InitialColor(bike: Product): (r: string)
    ensures |bike.colors| == 0 ==> r == ""
    ensures |bike.colors| > 0 ==> r == bike.colors[0]
  {
    if |bike.colors| > 0 && bike.colors[0] != "" then bike.colors[0] else ""
  }

  /** A selectable colour of a product (`caption` is the option's `label`). */
  datatype ColorOption = ColorOption(caption: string, value: string, selected: bool)

  /** One option per colour, in catalogue order, labelled with the colour's
      first letter upper-cased and selected exactly when it is `selected`. */
  function ColorOptions(bike: Product, selected: string): (r: seq<ColorOption>)
    ensures |r| == |bike.colors|
    ensures forall i :: 0 <= i < |r| ==>
      r[i].value == bike.colors[i] && r[i].caption == Capitalize(bike.colors[i])
      && (r[i].selected <==> bike.colors[i] == selected)
  {
    seq(|bike.colors|, i requires 0 <= i < |bike.colors| =>
      ColorOption(Capitalize(bike.colors[i]), bike.colors[i], bike.colors[i] == selected))
  }

  /** The position of the first product with the given id. */
  function FirstIndexOfId(bikes: seq<Product>, id: string): (r: Option<nat>)
    ensures r.None? <==> forall i :: 0 <= i < |bikes| ==> bikes[i].id != id
    ensures r.Some? ==> r.value < |bikes| && bikes[r.value].id == id
                        && forall j :: 0 <= j < r.value ==> bikes[j].id != id
  {
    if |bikes| == 0 then None
    else if bikes[0].id == id then Some(0)
    else
      match FirstIndexOfId(bikes[1..], id)
      case None => None
      case Some(k) => Some(k + 1)
  }

  /** The position of the last product with the given id. */
  function LastIndexOfId(bikes: seq<Product>, id: string): (r: Option<nat>)
    ensures r.None? <==> forall i :: 0 <= i < |bikes| ==> bikes[i].id != id
    ensures r.Some? ==> r.value < |bikes| && bikes[r.value].id == id
                        && forall j :: r.value < j < |bikes| ==> bikes[j].id != id
  {
    if |bikes| == 0 then None
    else if bikes[|bikes| - 1].id == id then Some(|bikes| - 1)
    else LastIndexOfId(bikes[..|bikes| - 1], id)
  }

  /** `bikes.find(b => b.id === id)`: the first product with that id. */
  function FindFirst(bikes: seq<Product>, id: string): (r: Option<Product>)
    ensures r.None? <==> forall i :: 0 <= i < |bikes| ==> bikes[i].id != id
    ensures r.Some? ==> r.value.id == id && r.value == bikes[FirstIndexOfId(bikes, id).value]
  {
    match FirstIndexOfId(bikes, id)
    case None => None
    case Some(k) => Some(bikes[k])
  }

  /** `new Map(bikes.map(b => [b.id, b])).get(id)`: building a Map lets a later
      product overwrite an earlier one with the same id, so the LAST one wins. */
  function FindLast(bikes: seq<Product>, id: string): (r: Option<Product>)
    ensures r.None? <==> forall i :: 0 <= i < |bikes| ==> bikes[i].id != id
    ensures r.Some? ==> r.value.id == id && r.value == bikes[LastIndexOfId(bikes, id).value]
  {
    match LastIndexOfId(bikes, id)
    case None => None
    case Some(k) => Some(bikes[k])
  }

  /** `stockStatus`, the same in every card and detail view. */
  function StockStatus(bike: Product): (r: string)
    ensures r == "In Stock" <==> bike.inStock
    ensures !bike.inStock <==> r == "Out of Stock"
  {
    if bike.inStock then "In Stock" else "Out of Stock"
  }

  /** `isOutOfStock`: the badge reads "Out of Stock". */
  function IsOutOfStock(bike: Product): (r: bool)
    ensures r <==> StockStatus(bike) == "Out of Stock"
  {
    !bike.inStock
  }

  /** `stockClass` of the detail views and the older card. */
  function StockClass(bike: Product): (r: string)
    ensures r == "stock-available" <==> bike.inStock
    ensures r == "stock-unavailable" <==> IsOutOfStock(bike)
  {
    if bike.inStock then "stock-available" else "stock-unavailable"
  }

  /** The detail of an `add_to_cart` event. */
  datatype AddToCart = AddToCart(bikeId: string, selectedColor: string, quantity: int)

  /** The keys that activate a focused control: Enter and Space. */
  predicate ActivationKey(key: string) {
    key == "Enter" || key == " "
  }
}
