/** The filter side panel (src/modules/my/bikeFilters/bikeFilters.js): it
    turns a changed form field into a `filterchange` detail, lists the type and
    brand options drawn from the catalogue, and shows one removable chip per
    active filter. The type and brand option lists of the older storefront
    (bicycle-store/src/modules/my/bikeStore/bikeStore.js) are the same lists
    and share these definitions. */
module FilterPanel {
  import opened Common
  import opened Catalogue
  import opened Pipeline

  // ---------------------------------------------------------------------------
  // Field changes

  /** `_createFilterUpdate(name, value)`: a price field replaces its own bound
      of the current range with `parseInt(value) || default` (0 for the
      minimum, the upper default for the maximum); any other field is
      forwarded under its own name. A text value sent under the key
      `priceRange` itself has no counterpart in the filter record of this
      model and is `None`. */
  function CreateFilterUpdate(name: string, value: string, current: PriceRange, d: Defaults): (r: Option<FilterChange>)
    ensures r.None? <==> name == "priceRange"
    ensures name == "minPrice" ==>
      r.Some? && r.value.PriceChange? && r.value.range.max == current.max
      && (ParseInt(value).None? || ParseInt(value) == Some(0) ==> r.value.range.min == 0)
      && (forall v :: ParseInt(value) == Some(v) && v != 0 ==> r.value.range.min == v)
    ensures name == "maxPrice" ==>
      r.Some? && r.value.PriceChange? && r.value.range.min == current.min
      && (ParseInt(value).None? || ParseInt(value) == Some(0) ==> r.value.range.max == d.upperPrice)
      && (forall v :: ParseInt(value) == Some(v) && v != 0 ==> r.value.range.max == v)
    ensures name == "type" ==> r == Some(TypeChange(value))
    ensures name == "brand" ==> r == Some(BrandChange(value))
    ensures name != "minPrice" && name != "maxPrice" && name != "type" && name != "brand" && name != "priceRange"
      ==> r == Some(OtherChange(name))
  {
    if name == "minPrice" then Some(PriceChange(current.(min := ParseIntOr(value, 0))))
    else if name == "maxPrice" then Some(PriceChange(current.(max := ParseIntOr(value, d.upperPrice))))
    else if name == "type" then Some(TypeChange(value))
    else if name == "brand" then Some(BrandChange(value))
    else if name == "priceRange" then None
    else Some(OtherChange(name))
  }

  /** The filter record after the panel's update for a price field reaches
      the store's `{ ...activeFilters, [filterType]: value }`. */
  function ApplyPriceField(f: FilterState, name: string, value: string, d: Defaults): (r: FilterState)
    requires name == "minPrice" || name == "maxPrice"
  {
    SetFilter(f, CreateFilterUpdate(name, value, f.priceRange, d).value)
  }

  /** A price field changes only its own bound: the type, the brand and the
      other bound stay. */
  lemma PriceFieldKeepsOtherBound(f: FilterState, name: string, value: string, d: Defaults)
    requires name == "minPrice" || name == "maxPrice"
    ensures var r := ApplyPriceField(f, name, value, d);
      && r.bikeType == f.bikeType && r.brand == f.brand
      && (name == "minPrice" ==> r.priceRange.max == f.priceRange.max)
      && (name == "maxPrice" ==> r.priceRange.min == f.priceRange.min)
  {
  }

  /** Typing the decimal form of a non-zero number sets that bound to exactly
      that number. */
  lemma PriceFieldRoundTrip(f: FilterState, n: int, d: Defaults)
    requires n != 0
    ensures ApplyPriceField(f, "minPrice", IntToString(n), d).priceRange == f.priceRange.(min := n)
    ensures ApplyPriceField(f, "maxPrice", IntToString(n), d).priceRange == f.priceRange.(max := n)
  {
    ParseIntRoundTrip(n);
  }

  /** Emptying a price field puts that bound back to its default, so an
      emptied minimum never counts as an active price filter on its own. */
  lemma EmptyPriceFieldRestoresDefault(f: FilterState, d: Defaults)
    ensures ApplyPriceField(f, "minPrice", "", d).priceRange.min == 0
    ensures ApplyPriceField(f, "maxPrice", "", d).priceRange.max == d.upperPrice
    ensures f.priceRange.max >= d.upperPrice ==> !PriceFilterActive(ApplyPriceField(f, "minPrice", "", d), d)
  {
    assert ParseInt("").None?;
  }

  // ---------------------------------------------------------------------------
  // Option lists

  /** One `<option>` of a select: its label, value and selection. */
  datatype FilterOption = FilterOption(caption: string, value: string, selected: bool)

  function TypesOf(bikes: seq<Product>): (r: seq<string>)
    ensures |r| == |bikes| && forall i :: 0 <= i < |bikes| ==> r[i] == bikes[i].bikeType
  {
    seq(|bikes|, i requires 0 <= i < |bikes| => bikes[i].bikeType)
  }

  function BrandsOf(bikes: seq<Product>): (r: seq<string>)
    ensures |r| == |bikes| && forall i :: 0 <= i < |bikes| ==> r[i] == bikes[i].brand
  {
    seq(|bikes|, i requires 0 <= i < |bikes| => bikes[i].brand)
  }

  /** The values of a list of options, in order. */
  function Values(r: seq<FilterOption>): (vs: seq<string>)
    ensures |vs| == |r| && forall i :: 0 <= i < |r| ==> vs[i] == r[i].value
  {
    seq(|r|, i requires 0 <= i < |r| => r[i].value)
  }

  /** The "All" entry with value '' followed by one entry per value, each
      selected when it equals the active filter. */
  function Options(allCaption: string, values: seq<string>, capitalize: bool, active: string): (r: seq<FilterOption>)
    ensures Values(r) == [""] + values
    ensures r[0].caption == allCaption
    ensures forall i :: 1 <= i < |r| ==> r[i].caption == (if capitalize then Capitalize(values[i - 1]) else values[i - 1])
    ensures forall i :: 0 <= i < |r| ==> (r[i].selected <==> r[i].value == active)
  {
    [FilterOption(allCaption, "", active == "")]
    + seq(|values|, i requires 0 <= i < |values| =>
        FilterOption(if capitalize then Capitalize(values[i]) else values[i], values[i], active == values[i]))
  }

  /** `typeOptions`: "All Types", then each distinct type in the order of its
      first bike, labelled with its first letter upper-cased. */
  function TypeOptions(bikes: seq<Product>, active: string): (r: seq<FilterOption>)
    ensures Values(r) == [""] + Distinct(TypesOf(bikes))
    ensures r[0].caption == "All Types"
    ensures forall i :: 1 <= i < |r| ==> r[i].caption == Capitalize(r[i].value)
    ensures forall i :: 0 <= i < |r| ==> (r[i].selected <==> r[i].value == active)
  {
    var r := Options("All Types", Distinct(TypesOf(bikes)), true, active);
    assert forall i :: 1 <= i < |r| ==> r[i].value == Values(r)[i];
    r
  }

  /** `brandOptions`: "All Brands", then each distinct brand, labelled as
      is. */
  function BrandOptions(bikes: seq<Product>, active: string): (r: seq<FilterOption>)
    ensures Values(r) == [""] + Distinct(BrandsOf(bikes))
    ensures r[0].caption == "All Brands"
    ensures forall i :: 1 <= i < |r| ==> r[i].caption == r[i].value
    ensures forall i :: 0 <= i < |r| ==> (r[i].selected <==> r[i].value == active)
  {
    var r := Options("All Brands", Distinct(BrandsOf(bikes)), false, active);
    assert forall i :: 1 <= i < |r| ==> r[i].value == Values(r)[i];
    r
  }

  /** Every type of the catalogue has exactly one option after "All Types",
      and no other value appears there. */
  lemma TypeOptionsCoverCatalogue(bikes: seq<Product>, active: string)
    ensures var r := TypeOptions(bikes, active);
      (forall t :: t in Values(r)[1..] <==> exists b :: b in bikes && b.bikeType == t)
      && NoDuplicates(Values(r)[1..])
  {
    var r := TypeOptions(bikes, active);
    assert Values(r)[1..] == Distinct(TypesOf(bikes));
    forall t
      ensures t in TypesOf(bikes) <==> exists b :: b in bikes && b.bikeType == t
    {
      if t in TypesOf(bikes) {
        var i :| 0 <= i < |bikes| && TypesOf(bikes)[i] == t;
        assert bikes[i] in bikes;
      }
    }
  }

  /** Every brand of the catalogue has exactly one option after "All Brands",
      and no other value appears there. */
  lemma BrandOptionsCoverCatalogue(bikes: seq<Product>, active: string)
    ensures var r := BrandOptions(bikes, active);
      (forall t :: t in Values(r)[1..] <==> exists b :: b in bikes && b.brand == t)
      && NoDuplicates(Values(r)[1..])
  {
    var r := BrandOptions(bikes, active);
    assert Values(r)[1..] == Distinct(BrandsOf(bikes));
    forall t
      ensures t in BrandsOf(bikes) <==> exists b :: b in bikes && b.brand == t
    {
      if t in BrandsOf(bikes) {
        var i :| 0 <= i < |bikes| && BrandsOf(bikes)[i] == t;
        assert bikes[i] in bikes;
      }
    }
  }

  /** In a list whose values are distinct, at most one option is
      selected, and one is exactly when the active value is listed. */
  lemma SelectionOfDistinctValues(r: seq<FilterOption>, active: string)
    requires forall i :: 0 <= i < |r| ==> (r[i].selected <==> r[i].value == active)
    requires NoDuplicates(Values(r))
    ensures forall i, j :: 0 <= i < j < |r| ==> !(r[i].selected && r[j].selected)
    ensures (exists i :: 0 <= i < |r| && r[i].selected) <==> active in Values(r)
  {
    var vs := Values(r);
    forall i, j | 0 <= i < j < |r| && r[i].selected
      ensures !r[j].selected
    {
      assert vs[i] != vs[j];
    }
    if active in vs {
      var k :| 0 <= k < |vs| && vs[k] == active;
      assert r[k].selected;
    }
  }

  /** When no bike has an empty type, at most one type option is selected,
      and one is exactly when the active type is empty or a catalogue
      type. */
  lemma OneTypeSelected(bikes: seq<Product>, active: string)
    requires forall b :: b in bikes ==> b.bikeType != ""
    ensures var r := TypeOptions(bikes, active);
      && (forall i, j :: 0 <= i < j < |r| ==> !(r[i].selected && r[j].selected))
      && ((exists i :: 0 <= i < |r| && r[i].selected) <==> active == "" || exists b :: b in bikes && b.bikeType == active)
  {
    var r := TypeOptions(bikes, active);
    TypeOptionsCoverCatalogue(bikes, active);
    var vs := Values(r);
    var d := Distinct(TypesOf(bikes));
    assert vs == [""] + d;
    assert "" !in d by {
      forall k | 0 <= k < |bikes|
        ensures TypesOf(bikes)[k] != ""
      {
        assert bikes[k] in bikes;
      }
    }
    assert NoDuplicates(vs) by {
      forall i, j | 0 <= i < j < |vs|
        ensures vs[i] != vs[j]
      {
        assert vs[j] == d[j - 1];
        if i > 0 {
          assert vs[i] == d[i - 1];
        }
      }
    }
    SelectionOfDistinctValues(r, active);
    assert active in vs <==> active == "" || active in vs[1..];
  }

  // ---------------------------------------------------------------------------
  // Active filter chips

  /** A chip of `activeFiltersList`: the filter key its close button clears,
      its label and its value. */
  datatype ActiveFilter = ActiveFilter(key: string, caption: string, value: string)

  /** The chip label of a price range, `Price: $min - $max`. */
  function PriceCaption(pr: PriceRange): string {
    "Price: $" + IntToString(pr.min) + " - $" + IntToString(pr.max)
  }

  /** `activeFiltersList`: a type chip, a brand chip and a price chip, each
      only when that filter is active, in that order. */
  function ActiveFiltersList(f: FilterState): (r: seq<ActiveFilter>)
    ensures |r| == ActiveFilterCount(f, Current)
    ensures "type" in Keys(r) <==> f.bikeType != ""
    ensures "brand" in Keys(r) <==> f.brand != ""
    ensures "priceRange" in Keys(r) <==> PriceFilterActive(f, Current)
  {
    var r := TypeChip(f) + BrandChip(f) + PriceChip(f);
    assert Keys(r) == Keys(TypeChip(f)) + Keys(BrandChip(f)) + Keys(PriceChip(f));
    assert Keys(TypeChip(f)) == if f.bikeType != "" then ["type"] else [];
    assert Keys(BrandChip(f)) == if f.brand != "" then ["brand"] else [];
    assert Keys(PriceChip(f)) == if PriceFilterActive(f, Current) then ["priceRange"] else [];
    r
  }

  /** The chip at position `i`: the type chip if there is one, then the brand
      chip, then the price chip. */
  lemma ChipAt(f: FilterState, i: nat)
    requires i < |ActiveFiltersList(f)|
    ensures var t, b := TypeChip(f), BrandChip(f);
      ActiveFiltersList(f)[i] ==
        if i < |t| then t[0] else if i < |t| + |b| then b[0] else PriceChip(f)[0]
  {
    var t, b, p := TypeChip(f), BrandChip(f), PriceChip(f);
    var r := ActiveFiltersList(f);
    assert r == t + b + p;
    if i >= |t| + |b| {
      assert r[i] == p[i - |t| - |b|];
    }
  }

  /** Every chip carries the label and value of its own filter. */
  lemma ChipsCarryFilterValues(f: FilterState)
    ensures var r := ActiveFiltersList(f);
      forall i :: 0 <= i < |r| ==> match r[i].key
        case "type" => r[i].caption == "Type: " + f.bikeType && r[i].value == f.bikeType
        case "brand" => r[i].caption == "Brand: " + f.brand && r[i].value == f.brand
        case "priceRange" => r[i].caption == PriceCaption(f.priceRange) && r[i].value == "price"
        case _ => false
  {
    forall i | 0 <= i < |ActiveFiltersList(f)| {
      ChipAt(f, i);
    }
  }

  /** The chips come in the fixed order type, brand, price. */
  lemma ChipsInKeyOrder(f: FilterState)
    ensures var r := ActiveFiltersList(f);
      forall i, j :: 0 <= i < j < |r| ==> KeyRank(r[i].key) < KeyRank(r[j].key)
  {
    forall i, j | 0 <= i < j < |ActiveFiltersList(f)|
      ensures KeyRank(ActiveFiltersList(f)[i].key) < KeyRank(ActiveFiltersList(f)[j].key)
    {
      ChipAt(f, i);
      ChipAt(f, j);
    }
  }

  /** The keys of a list of chips, in order. */
  function Keys(r: seq<ActiveFilter>): (ks: seq<string>)
    ensures |ks| == |r| && forall i :: 0 <= i < |r| ==> ks[i] == r[i].key
  {
    seq(|r|, i requires 0 <= i < |r| => r[i].key)
  }

  function TypeChip(f: FilterState): seq<ActiveFilter> {
    if f.bikeType != "" then [ActiveFilter("type", "Type: " + f.bikeType, f.bikeType)] else []
  }

  function BrandChip(f: FilterState): seq<ActiveFilter> {
    if f.brand != "" then [ActiveFilter("brand", "Brand: " + f.brand, f.brand)] else []
  }

  function PriceChip(f: FilterState): seq<ActiveFilter> {
    if PriceFilterActive(f, Current) then [ActiveFilter("priceRange", PriceCaption(f.priceRange), "price")] else []
  }

  /** The position of a chip key in the list's fixed order. */
  function KeyRank(key: string): int {
    if key == "type" then 0 else if key == "brand" then 1 else 2
  }

  /** `hasActiveFilters` of the panel is the store's predicate with the
      current defaults, and holds exactly when some chip is shown. */
  lemma HasActiveFiltersIffChips(f: FilterState)
    ensures HasActiveFilters(f, Current) <==> |ActiveFiltersList(f)| > 0
  {
  }

  /** Closing a chip (`clearfilter` with the chip's key, handled by the
      store's `handleClearFilter`) removes exactly that chip and keeps the
      others as they were. */
  lemma ClearChipRemovesIt(f: FilterState, i: nat)
    requires i < |ActiveFiltersList(f)|
    ensures var r := ActiveFiltersList(f);
      ActiveFiltersList(ClearFilter(f, r[i].key, Current)) == r[..i] + r[i + 1..]
  {
    var r := ActiveFiltersList(f);
    var g := ClearFilter(f, r[i].key, Current);
    assert r == TypeChip(f) + BrandChip(f) + PriceChip(f);
    if r[i].key == "type" {
      assert TypeChip(g) == [] && BrandChip(g) == BrandChip(f) && PriceChip(g) == PriceChip(f);
      assert i == 0;
      assert r[1..] == BrandChip(f) + PriceChip(f);
    } else if r[i].key == "brand" {
      assert TypeChip(g) == TypeChip(f) && BrandChip(g) == [] && PriceChip(g) == PriceChip(f);
      assert i == |TypeChip(f)|;
      assert r[..i] == TypeChip(f);
      assert r[i + 1..] == PriceChip(f);
    } else {
      assert TypeChip(g) == TypeChip(f) && BrandChip(g) == BrandChip(f) && PriceChip(g) == [];
      assert i == |r| - 1;
      assert r[..i] == TypeChip(f) + BrandChip(f);
    }
  }
}
