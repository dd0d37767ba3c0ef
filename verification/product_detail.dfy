/** The product detail page (src/modules/my/bikeDetail/bikeDetail.js): the
    selected colour, the gallery of that colour's images with a cyclic
    index, the zoom overlay and its keyboard handling, the quantity picker and
    the derived text. The older page
    (bicycle-store/src/modules/my/bikeDetail/bikeDetail.js) has no gallery;
    its image and frame-size rules differ and are modelled alongside. */
module ProductDetail {
  import opened Common
  import opened Catalogue

  /** The page state. `imageIndex` is `currentImageIndex`. */
  datatype Detail = Detail(bike: Product, selectedColor: string, quantity: int, zoomed: bool, imageIndex: int)

  /** `connectedCallback` and the field initialisers. */
  function Init(bike: Product): (d: Detail)
    ensures d.bike == bike && d.quantity == 1 && !d.zoomed && d.imageIndex == 0
    ensures |bike.colors| > 0 ==> d.selectedColor == bike.colors[0]
    ensures |bike.colors| == 0 ==> d.selectedColor == ""
    ensures Valid(d)
  {
    Detail(bike, InitialColor(bike), 1, false, 0)
  }

  // ---------------------------------------------------------------------------
  // The gallery

  /** `currentImages`: the colour's URL list as it is, a single URL wrapped in
      a list, or, without a usable entry, the bike's image or the placeholder
      alone. An empty list entry is truthy and so gives an empty gallery. */
  function CurrentImages(bike: Product, color: string): (r: seq<string>)
    ensures ColorEntry(bike, color).None? ==> r == [DefaultImage(bike, DetailPlaceholder)]
    ensures ColorEntry(bike, color).Some? && ColorEntry(bike, color).value.Single? ==>
      r == [bike.images[color].url]
    ensures ColorEntry(bike, color).Some? && ColorEntry(bike, color).value.Many? ==>
      r == bike.images[color].urls
    ensures r == [] <==> ColorEntry(bike, color) == Some(Many([]))
  {
    match ColorEntry(bike, color)
    case None => [DefaultImage(bike, DetailPlaceholder)]
    case Some(Single(u)) => [u]
    case Some(Many(urls)) => urls
  }

  function Images(d: Detail): seq<string> {
    CurrentImages(d.bike, d.selectedColor)
  }

  /** `currentImage`: the image at the index, else the first one, else the
      placeholder, skipping empty URLs. Never empty. */
  function CurrentImage(d: Detail): (r: string)
    ensures r != ""
    ensures 0 <= d.imageIndex < |Images(d)| && Images(d)[d.imageIndex] != "" ==> r == Images(d)[d.imageIndex]
    ensures r in Images(d) || r == DetailPlaceholder
  {
    var images := Images(d);
    if 0 <= d.imageIndex < |images| && images[d.imageIndex] != "" then images[d.imageIndex]
    else if |images| > 0 && images[0] != "" then images[0]
    else DetailPlaceholder
  }

  /** The index stays on a gallery image (or at 0 for an empty gallery). */
  predicate Valid(d: Detail) {
    0 <= d.imageIndex && (d.imageIndex < |Images(d)| || d.imageIndex == 0)
  }

  /** The index after `handleNextImage` on a gallery of `n` images: no change
      for a gallery of at most one image, else one on, wrapping to 0. */
  function NextIndex(i: int, n: int): int {
    if n > 1 then (if i == n - 1 then 0 else i + 1) else i
  }

  /** The index after `handlePreviousImage`: one back, wrapping to the last. */
  function PreviousIndex(i: int, n: int): int {
    if n > 1 then (if i == 0 then n - 1 else i - 1) else i
  }

  /** On an index inside the gallery, next is a step modulo the gallery size. */
  lemma NextIsModular(i: int, n: int)
    requires n > 1 && 0 <= i < n
    ensures NextIndex(i, n) == (i + 1) % n
    ensures 0 <= NextIndex(i, n) < n
  {
    if i < n - 1 {
      assert (i + 1) % n == i + 1;
    }
  }

  /** On an index inside the gallery, previous is a step back modulo the
      gallery size. */
  lemma PreviousIsModular(i: int, n: int)
    requires n > 1 && 0 <= i < n
    ensures PreviousIndex(i, n) == (i - 1 + n) % n
    ensures 0 <= PreviousIndex(i, n) < n
  {
    if i > 0 {
      assert (i - 1 + n) % n == i - 1;
    }
  }

  /** Previous undoes next, and next undoes previous, on every index inside
      the gallery. */
  lemma StepsAreInverse(i: int, n: int)
    requires 0 <= i < n
    ensures PreviousIndex(NextIndex(i, n), n) == i
    ensures NextIndex(PreviousIndex(i, n), n) == i
  {
  }

  /** `handleNextImage`. */
  function NextImage(d: Detail): (r: Detail)
    ensures r == d.(imageIndex := NextIndex(d.imageIndex, |Images(d)|))
    ensures Valid(d) ==> Valid(r)
  {
    d.(imageIndex := NextIndex(d.imageIndex, |Images(d)|))
  }

  /** `handlePreviousImage`. */
  function PreviousImage(d: Detail): (r: Detail)
    ensures r == d.(imageIndex := PreviousIndex(d.imageIndex, |Images(d)|))
    ensures Valid(d) ==> Valid(r)
  {
    d.(imageIndex := PreviousIndex(d.imageIndex, |Images(d)|))
  }

  /** `handleThumbnailClick` on the thumbnail at position `i` (its
      `data-index` is its position written out, which `parseInt` reads back
      intact). */
  function ThumbnailClick(d: Detail, i: int): (r: Detail)
    ensures r.imageIndex == i && r.(imageIndex := d.imageIndex) == d
    ensures 0 <= i < |Images(d)| ==> Valid(r)
    ensures 0 <= i < |Images(d)| && Images(d)[i] != "" ==> CurrentImage(r) == Images(d)[i]
  {
    d.(imageIndex := i)
  }

  /** `handleColorChange`: a new colour starts its gallery at the first image. */
  function ColorChange(d: Detail, value: string): (r: Detail)
    ensures r.selectedColor == value && r.imageIndex == 0
    ensures r.(selectedColor := d.selectedColor, imageIndex := d.imageIndex) == d
    ensures Valid(r)
  {
    d.(selectedColor := value, imageIndex := 0)
  }

  /** One thumbnail: its URL, its position, and whether it is the one shown. */
  datatype Thumbnail = Thumbnail(url: string, index: int, isActive: bool)

  /** `thumbnailImages`. */
  function ThumbnailImages(d: Detail): (r: seq<Thumbnail>)
    ensures |r| == |Images(d)|
    ensures forall i :: 0 <= i < |r| ==>
      r[i].url == Images(d)[i] && r[i].index == i && (r[i].isActive <==> i == d.imageIndex)
  {
    var images := Images(d);
    seq(|images|, i requires 0 <= i < |images| => Thumbnail(images[i], i, i == d.imageIndex))
  }

  /** In a valid state with a non-empty gallery exactly one thumbnail is
      active. */
  lemma OneActiveThumbnail(d: Detail)
    requires Valid(d) && |Images(d)| > 0
    ensures var t := ThumbnailImages(d);
      t[d.imageIndex].isActive && forall i :: 0 <= i < |t| && i != d.imageIndex ==> !t[i].isActive
  {
  }

  /** `hasMultipleImages`: the gallery arrows are shown exactly when they
      move, that is, when in a valid state either step changes the index. */
  function HasMultipleImages(d: Detail): (r: bool)
    ensures Valid(d) ==> (r <==> NextImage(d).imageIndex != d.imageIndex)
    ensures Valid(d) ==> (r <==> PreviousImage(d).imageIndex != d.imageIndex)
  {
    |Images(d)| > 1
  }

  /** `imageCounter`: "position / count", the position counted from 1; each
      number reads back with `parseInt`. */
  function ImageCounter(d: Detail): (r: string)
    ensures var k := |IntToString(d.imageIndex + 1)|;
      && k + 3 <= |r|
      && ParseInt(r[..k]) == Some(d.imageIndex + 1)
      && r[k..k + 3] == " / "
      && ParseInt(r[k + 3..]) == Some(|Images(d)|)
  {
    var a := IntToString(d.imageIndex + 1);
    var b := IntToString(|Images(d)|);
    var r := a + " / " + b;
    assert r[..|a|] == a && r[|a| + 3..] == b;
    ParseIntRoundTrip(d.imageIndex + 1);
    ParseIntRoundTrip(|Images(d)|);
    r
  }

  // ---------------------------------------------------------------------------
  // Zoom

  /** `handleImageClick`: toggles the overlay. */
  function ImageClick(d: Detail): (r: Detail)
    ensures r.zoomed == !d.zoomed && r.(zoomed := d.zoomed) == d
  {
    d.(zoomed := !d.zoomed)
  }

  /** `handleImageKeyDown`: Enter and Space toggle the overlay. */
  function ImageKeyDown(d: Detail, key: string): (r: Detail)
    ensures ActivationKey(key) ==> r == ImageClick(d)
    ensures !ActivationKey(key) ==> r == d
  {
    if ActivationKey(key) then ImageClick(d) else d
  }

  /** `handleZoomClose`. */
  function ZoomClose(d: Detail): (r: Detail)
    ensures !r.zoomed && r.(zoomed := d.zoomed) == d
  {
    d.(zoomed := false)
  }

  /** `handleZoomKeyDown`: while zoomed, Escape closes and the arrow keys step
      through the gallery; otherwise, and for any other key, nothing. */
  function ZoomKeyDown(d: Detail, key: string): (r: Detail)
    ensures !d.zoomed ==> r == d
    ensures d.zoomed && key == "Escape" ==> r == ZoomClose(d)
    ensures d.zoomed && key == "ArrowLeft" ==> r == PreviousImage(d)
    ensures d.zoomed && key == "ArrowRight" ==> r == NextImage(d)
    ensures key !in ["Escape", "ArrowLeft", "ArrowRight"] ==> r == d
    ensures Valid(d) ==> Valid(r)
  {
    if !d.zoomed then d
    else if key == "Escape" then ZoomClose(d)
    else if key == "ArrowLeft" then PreviousImage(d)
    else if key == "ArrowRight" then NextImage(d)
    else d
  }

  /** Right then left inside the zoomed gallery returns to the same image. */
  lemma ZoomRightLeft(d: Detail)
    requires Valid(d) && d.zoomed
    ensures ZoomKeyDown(ZoomKeyDown(d, "ArrowRight"), "ArrowLeft") == d
  {
    var n := |Images(d)|;
    if n > 0 {
      StepsAreInverse(d.imageIndex, n);
    }
  }

  /** `imageContainerClass` and `zoomModalClass`. */
  function ImageContainerClass(d: Detail): (r: string)
    ensures d.zoomed <==> r == "product-image-container zoomed"
  {
    if d.zoomed then "product-image-container zoomed" else "product-image-container"
  }

  function ZoomModalClass(d: Detail): (r: string)
    ensures d.zoomed <==> r == "zoom-modal show"
  {
    if d.zoomed then "zoom-modal show" else "zoom-modal"
  }

  // ---------------------------------------------------------------------------
  // Quantity, price and the rest

  /** `parseInt(value, 10) || 1`: the entered number, or 1 when there is no
      number or it is 0 (a negative number is kept). */
  function ParseQuantity(value: string): (q: int)
    ensures q != 0
    ensures ParseInt(value).None? ==> q == 1
    ensures ParseInt(value).Some? && ParseInt(value).value != 0 ==> q == ParseInt(value).value
    ensures ParseInt(value) == Some(0) ==> q == 1
  {
    ParseIntOr(value, 1)
  }

  /** Selecting the option labelled with a positive number picks that
      number. */
  lemma ParseQuantityOfLabel(n: int)
    requires n != 0
    ensures ParseQuantity(IntToString(n)) == n
  {
    ParseIntRoundTrip(n);
  }

  /** `handleQuantityChange`. */
  function QuantityChange(d: Detail, value: string): (r: Detail)
    ensures r.quantity == ParseQuantity(value) && r.(quantity := d.quantity) == d
  {
    d.(quantity := ParseQuantity(value))
  }

  datatype QuantityOption = QuantityOption(caption: string, value: int, selected: bool)

  /** `quantityOptions`: 1 to 10, the current quantity selected. */
  function QuantityOptions(quantity: int): (r: seq<QuantityOption>)
    ensures |r| == 10
    ensures forall i :: 0 <= i < 10 ==>
      r[i].value == i + 1 && r[i].caption == IntToString(i + 1) && (r[i].selected <==> quantity == i + 1)
    ensures (exists i :: 0 <= i < 10 && r[i].selected) <==> 1 <= quantity <= 10
  {
    var r := seq(10, i requires 0 <= i < 10 => QuantityOption(IntToString(i + 1), i + 1, quantity == i + 1));
    assert 1 <= quantity <= 10 ==> r[quantity - 1].selected;
    r
  }

  /** Picking an option from the list selects exactly that option. */
  lemma PickedOptionSelected(d: Detail, i: int)
    requires 0 <= i < 10
    ensures var d' := QuantityChange(d, QuantityOptions(d.quantity)[i].caption);
      QuantityOptions(d'.quantity)[i].selected
  {
    ParseQuantityOfLabel(i + 1);
  }

  /** `handleAddToCart`. */
  function AddToCartDetail(d: Detail): (e: AddToCart)
    ensures e.bikeId == d.bike.id && e.selectedColor == d.selectedColor && e.quantity == d.quantity
  {
    AddToCart(d.bike.id, d.selectedColor, d.quantity)
  }

  /** `formattedOriginalPrice` before formatting: absent when the original
      price is missing, 0, or the same as the price. */
  function OriginalPrice(bike: Product): (r: Option<int>)
    ensures r.Some? <==> bike.originalPrice.Some? && bike.originalPrice.value != 0 && bike.originalPrice.value != bike.price
    ensures r.Some? ==> r == bike.originalPrice
  {
    match bike.originalPrice
    case None => None
    case Some(p) => if p == 0 || p == bike.price then None else Some(p)
  }

  /** `hasDiscount`: an original price is shown. */
  function HasDiscount(bike: Product): (r: bool)
    ensures r <==> bike.originalPrice.Some? && bike.originalPrice.value != 0 && bike.originalPrice.value != bike.price
  {
    OriginalPrice(bike).Some?
  }

  const VariousSizes: string := "Various sizes available"

  /** `frameSize` of the current page: the sizes joined with ", ", or the
      default text when that is empty (no list, an empty list, or one empty
      size). */
  function FrameSize(bike: Product): (r: string)
    ensures r != ""
    ensures bike.frameSize.None? ==> r == VariousSizes
    ensures bike.frameSize.Some? && |bike.frameSize.value| == 0 ==> r == VariousSizes
    ensures bike.frameSize.Some? && |bike.frameSize.value| == 1 && bike.frameSize.value[0] != "" ==>
      r == bike.frameSize.value[0]
  {
    if bike.frameSize.None? then VariousSizes
    else
      var joined := Join(bike.frameSize.value, ", ");
      if joined == "" then VariousSizes else joined
  }

  /** `frameSize` of the older page: only a missing list gives the default;
      an empty list is truthy and joins to the empty string. */
  function LegacyFrameSize(bike: Product): (r: string)
    ensures bike.frameSize.None? ==> r == VariousSizes
    ensures bike.frameSize.Some? ==> r == Join(bike.frameSize.value, ", ")
    ensures bike.frameSize == Some([]) ==> r == ""
  {
    if bike.frameSize.None? then VariousSizes else Join(bike.frameSize.value, ", ")
  }

  /** The two versions agree except on a list that joins to the empty string,
      which the older page shows as an empty line. */
  lemma FrameSizeVersions(bike: Product)
    ensures FrameSize(bike) != LegacyFrameSize(bike) <==>
      bike.frameSize.Some? && Join(bike.frameSize.value, ", ") == ""
  {
  }

  /** `currentImage` of the older page: the raw colour entry (a list stays a
      list) when a colour is selected and its entry is usable, else the bike's
      image or the placeholder as a single URL. */
  function LegacyCurrentImage(bike: Product, color: string): (r: ImageEntry)
    ensures color != "" && ColorEntry(bike, color).Some? ==> r == bike.images[color]
    ensures color == "" || ColorEntry(bike, color).None? ==> r == Single(DefaultImage(bike, DetailPlaceholder))
  {
    if color != "" && ColorEntry(bike, color).Some? then bike.images[color]
    else Single(DefaultImage(bike, DetailPlaceholder))
  }

  /** When the older page shows a single URL for a selected colour, the
      current page's gallery is that URL alone. */
  lemma LegacyImageIsGallery(bike: Product, color: string)
    requires color != ""
    ensures LegacyCurrentImage(bike, color).Single? ==> CurrentImages(bike, color) == [LegacyCurrentImage(bike, color).url]
    ensures LegacyCurrentImage(bike, color).Many? ==> CurrentImages(bike, color) == LegacyCurrentImage(bike, color).urls
  {
  }
}
