/** The catalogue pipeline both storefront versions run on every filter or sort
    change (`applyFiltersAndSort` / `_sortBikes` in
    src/modules/my/bikeStore/bikeStore.js and `applyFiltersAndSort` /
    `sortBikes` in bicycle-store/src/modules/my/bikeStore/bikeStore.js): three
    filter stages, then a stable sort on one key, then the page slice; plus
    the bookkeeping on the active-filter record. The two versions differ only
    in two constants, gathered in `Defaults`. */
module Pipeline {
  import opened Common
  import opened Catalogue

  /** A price range as the filter fields hold it: whole currency units
      (`parseInt` of the typed text, or a default). */
  datatype PriceRange = PriceRange(min: int, max: int)

  /** The inclusive price test `price >= min && price <= max`. Prices are
      integer cents and the bounds whole units, so a bound of `m` units is
      `100 * m` cents; for a price with at most two decimals this is the same
      comparison as the one on the decimal price. */
  predicate InPriceRange(price: int, pr: PriceRange) {
    100 * pr.min <= price <= 100 * pr.max
  }

  /** The `activeFilters` record; an empty string means "no filter". */
  datatype FilterState = FilterState(bikeType: string, brand: string, priceRange: PriceRange)

  /** The constants a storefront version fixes: the upper end of the default
      price range, and the release date (yyyymmdd) a bike without one sorts as. */
  datatype Defaults = Defaults(upperPrice: int, defaultDate: int)

  /** The current storefront: `{ min: 0, max: 10000 }` and `'2025-01-01'`. */
  const Current: Defaults := Defaults(10000, 20250101)

  /** The older storefront: `{ min: 0, max: 5000 }` and `'2024-01-01'`. */
  const Legacy: Defaults := Defaults(5000, 20240101)

  function DefaultRange(d: Defaults): PriceRange {
    PriceRange(0, d.upperPrice)
  }

  function DefaultFilters(d: Defaults): FilterState {
    FilterState("", "", DefaultRange(d))
  }

  // ---------------------------------------------------------------------------
  // Filtering

  /** A bike passes the filters when each non-empty text filter matches it
      exactly and its price lies in the range, both ends included. */
  predicate Matches(b: Product, f: FilterState) {
    && (f.bikeType == "" || b.bikeType == f.bikeType)
    && (f.brand == "" || b.brand == f.brand)
    && InPriceRange(b.price, f.priceRange)
  }

  /** The test of one `filter` stage. */
  datatype Criterion = OfType(bikeType: string) | OfBrand(brand: string) | InRange(range: PriceRange)

  predicate Accepts(c: Criterion, b: Product) {
    match c
    case OfType(t) => b.bikeType == t
    case OfBrand(br) => b.brand == br
    case InRange(pr) => InPriceRange(b.price, pr)
  }

  /** `s.filter(b => Accepts(c, b))`. */
  function Keep(s: seq<Product>, c: Criterion): (r: seq<Product>)
    ensures |r| <= |s|
    ensures forall b :: b in r <==> b in s && Accepts(c, b)
    ensures multiset(r) <= multiset(s)
  {
    if |s| == 0 then []
    else
      assert s == [s[0]] + s[1..];
      (if Accepts(c, s[0]) then [s[0]] else []) + Keep(s[1..], c)
  }

  lemma KeepCons(s: seq<Product>, c: Criterion)
    requires |s| > 0
    ensures Keep(s, c) == (if Accepts(c, s[0]) then [s[0]] else []) + Keep(s[1..], c)
  {
  }

  lemma {:induction false} KeepConcat(a: seq<Product>, b: seq<Product>, c: Criterion)
    ensures Keep(a + b, c) == Keep(a, c) + Keep(b, c)
  {
    if |a| > 0 {
      var ab := a + b;
      assert ab[0] == a[0] && ab[1..] == a[1..] + b;
      KeepConcat(a[1..], b, c);
      KeepCons(ab, c);
      KeepCons(a, c);
      var h := if Accepts(c, a[0]) then [a[0]] else [];
      var x, y := Keep(a[1..], c), Keep(b, c);
      assert h + (x + y) == (h + x) + y;
    } else {
      assert a + b == b;
    }
  }

  /** The type stage, skipped when the type filter is empty. */
  function ByType(s: seq<Product>, f: FilterState): (r: seq<Product>)
    ensures forall b :: b in r <==> b in s && (f.bikeType == "" || b.bikeType == f.bikeType)
    ensures multiset(r) <= multiset(s)
  {
    if f.bikeType != "" then Keep(s, OfType(f.bikeType)) else s
  }

  /** The brand stage, skipped when the brand filter is empty. */
  function ByBrand(s: seq<Product>, f: FilterState): (r: seq<Product>)
    ensures forall b :: b in r <==> b in s && (f.brand == "" || b.brand == f.brand)
    ensures multiset(r) <= multiset(s)
  {
    if f.brand != "" then Keep(s, OfBrand(f.brand)) else s
  }

  /** The price stage, always applied. */
  function ByPrice(s: seq<Product>, f: FilterState): (r: seq<Product>)
    ensures forall b :: b in r <==> b in s && 100 * f.priceRange.min <= b.price <= 100 * f.priceRange.max
    ensures multiset(r) <= multiset(s)
  {
    Keep(s, InRange(f.priceRange))
  }

  /** The three filter stages of `applyFiltersAndSort`, in source order. */
  function ApplyFilters(bikes: seq<Product>, f: FilterState): (r: seq<Product>)
    ensures forall b :: b in r <==> b in bikes && Matches(b, f)
    ensures multiset(r) <= multiset(bikes)
  {
    var s1 := ByType(bikes, f);
    var s2 := ByBrand(s1, f);
    ByPrice(s2, f)
  }

  /** The reference filter: one pass keeping the bikes that match. */
  function Select(s: seq<Product>, f: FilterState): (r: seq<Product>)
    ensures |r| <= |s|
    ensures forall b :: b in r <==> b in s && Matches(b, f)
    ensures multiset(r) <= multiset(s)
  {
    if |s| == 0 then []
    else
      assert s == [s[0]] + s[1..];
      (if Matches(s[0], f) then [s[0]] else []) + Select(s[1..], f)
  }

  /** Filtering preserves relative order: it distributes over concatenation. */
  lemma {:induction false} SelectConcat(a: seq<Product>, b: seq<Product>, f: FilterState)
    ensures Select(a + b, f) == Select(a, f) + Select(b, f)
  {
    if |a| > 0 {
      assert (a + b)[1..] == a[1..] + b;
      SelectConcat(a[1..], b, f);
    } else {
      assert a + b == b;
    }
  }

  /** Every bike the filter keeps appears in the output exactly as often as in
      the input, and every other bike not at all. */
  lemma {:induction false} SelectCounts(s: seq<Product>, f: FilterState, b: Product)
    ensures multiset(Select(s, f))[b] == if Matches(b, f) then multiset(s)[b] else 0
  {
    if |s| > 0 {
      assert s == [s[0]] + s[1..];
      SelectCounts(s[1..], f, b);
    }
  }

  /** A filter stage keeps a list of at most one bike or empties it. */
  lemma KeepSmall(s: seq<Product>, c: Criterion)
    requires |s| <= 1
    ensures Keep(s, c) == if |s| == 1 && Accepts(c, s[0]) then s else []
  {
    if |s| == 1 {
      assert s[1..] == [];
    }
  }

  lemma ByTypeConcat(a: seq<Product>, b: seq<Product>, f: FilterState)
    ensures ByType(a + b, f) == ByType(a, f) + ByType(b, f)
  {
    KeepConcat(a, b, OfType(f.bikeType));
  }

  lemma ByBrandConcat(a: seq<Product>, b: seq<Product>, f: FilterState)
    ensures ByBrand(a + b, f) == ByBrand(a, f) + ByBrand(b, f)
  {
    KeepConcat(a, b, OfBrand(f.brand));
  }

  /** The staged filters distribute over concatenation. */
  lemma ApplyFiltersConcat(a: seq<Product>, b: seq<Product>, f: FilterState)
    ensures ApplyFilters(a + b, f) == ApplyFilters(a, f) + ApplyFilters(b, f)
  {
    ByTypeConcat(a, b, f);
    ByBrandConcat(ByType(a, f), ByType(b, f), f);
    KeepConcat(ByBrand(ByType(a, f), f), ByBrand(ByType(b, f), f), InRange(f.priceRange));
  }

  lemma ApplyFiltersSingleton(x: Product, f: FilterState)
    ensures ApplyFilters([x], f) == if Matches(x, f) then [x] else []
  {
    var s1 := ByType([x], f);
    KeepSmall([x], OfType(f.bikeType));
    var s2 := ByBrand(s1, f);
    KeepSmall(s1, OfBrand(f.brand));
    KeepSmall(s2, InRange(f.priceRange));
  }

  /** The staged filters keep exactly what the one-pass reference keeps, in
      the same order. */
  lemma {:induction false} ApplyFiltersIsSelect(s: seq<Product>, f: FilterState)
    ensures ApplyFilters(s, f) == Select(s, f)
  {
    if |s| > 0 {
      assert s == [s[0]] + s[1..];
      ApplyFiltersIsSelect(s[1..], f);
      ApplyFiltersConcat([s[0]], s[1..], f);
      ApplyFiltersSingleton(s[0], f);
    }
  }

  // ---------------------------------------------------------------------------
  // Sorting

  /** The sort orders `_sortBikes` knows; any other `sortBy` value is
      `Unsorted`, which leaves the order as it is. */
  datatype SortKey = PriceLow | PriceHigh | Popularity | Newest | Unsorted

  /** The `sortBy` string that selects a known order. */
  function SortKeyName(k: SortKey): string {
    match k
    case PriceLow => "price-low"
    case PriceHigh => "price-high"
    case Popularity => "popularity"
    case Newest => "newest"
    case Unsorted => ""
  }

  /** The `switch (this.sortBy)` dispatch. */
  function ParseSortKey(s: string): (k: SortKey)
    ensures k != Unsorted ==> SortKeyName(k) == s
    ensures k == Unsorted <==> s !in ["price-low", "price-high", "popularity", "newest"]
  {
    if s == "price-low" then PriceLow
    else if s == "price-high" then PriceHigh
    else if s == "popularity" then Popularity
    else if s == "newest" then Newest
    else Unsorted
  }

  lemma ParseSortKeyName(k: SortKey)
    requires k != Unsorted
    ensures ParseSortKey(SortKeyName(k)) == k
  {
  }

  /** The number the comparator of key `k` effectively compares, ascending:
      `a.price - b.price` sorts by price, `b.price - a.price` by minus the
      price, `(b.popularity || 0) - (a.popularity || 0)` by minus the
      popularity with 0 for a missing one, and the date comparator by minus the
      release date with the version's default for a missing one. */
  function Rank(k: SortKey, d: Defaults, b: Product): int {
    match k
    case PriceLow => b.price
    case PriceHigh => -b.price
    case Popularity => -(if b.popularity.Some? then b.popularity.value else 0)
    case Newest => -(if b.releaseDate.Some? then b.releaseDate.value else d.defaultDate)
    case Unsorted => 0
  }

  predicate SortedBy(s: seq<Product>, k: SortKey, d: Defaults) {
    forall i, j :: 0 <= i < j < |s| ==> Rank(k, d, s[i]) <= Rank(k, d, s[j])
  }

  /** The bikes of `s` whose rank is `v`, in order. A sort is stable exactly
      when it leaves every such subsequence as it was. */
  function WithRank(s: seq<Product>, k: SortKey, d: Defaults, v: int): seq<Product> {
    if |s| == 0 then []
    else (if Rank(k, d, s[0]) == v then [s[0]] else []) + WithRank(s[1..], k, d, v)
  }

  /** The subsequence of rank `v` holds exactly the bikes of that rank. */
  lemma {:induction false} WithRankMembers(s: seq<Product>, k: SortKey, d: Defaults, v: int)
    ensures forall b :: b in WithRank(s, k, d, v) <==> b in s && Rank(k, d, b) == v
  {
    if |s| > 0 {
      WithRankMembers(s[1..], k, d, v);
      assert s == [s[0]] + s[1..];
    }
  }

  /** Putting a bike ranked no higher than any of a sorted list in front keeps
      it sorted. */
  lemma SortedCons(x: Product, t: seq<Product>, k: SortKey, d: Defaults)
    requires SortedBy(t, k, d)
    requires forall y :: y in t ==> Rank(k, d, x) <= Rank(k, d, y)
    ensures SortedBy([x] + t, k, d)
  {
    var r := [x] + t;
    forall i, j | 0 <= i < j < |r| ensures Rank(k, d, r[i]) <= Rank(k, d, r[j]) {
      assert r[j] == t[j - 1];
      if i > 0 {
        assert r[i] == t[i - 1];
      } else {
        assert t[j - 1] in t;
      }
    }
  }

  /** Inserts `x` into a sorted list before the first bike ranked at least as
      high, so that `x` precedes every bike of equal rank. */
  function Insert(x: Product, t: seq<Product>, k: SortKey, d: Defaults): (r: seq<Product>)
    requires SortedBy(t, k, d)
    ensures multiset(r) == multiset(t) + multiset{x}
    ensures forall y :: y in r ==> y == x || y in t
    ensures SortedBy(r, k, d)
  {
    if |t| == 0 || Rank(k, d, x) <= Rank(k, d, t[0]) then
      SortedCons(x, t, k, d);
      [x] + t
    else
      SortedTail(t, k, d);
      var rest := Insert(x, t[1..], k, d);
      HeadBelowRest(x, t, rest, k, d);
      SortedCons(t[0], rest, k, d);
      assert t == [t[0]] + t[1..];
      [t[0]] + rest
  }

  /** What `Insert` builds behind the head of `t` ranks no lower than that
      head, when `x` ranks above it. */
  lemma HeadBelowRest(x: Product, t: seq<Product>, rest: seq<Product>, k: SortKey, d: Defaults)
    requires SortedBy(t, k, d) && |t| > 0 && Rank(k, d, x) > Rank(k, d, t[0])
    requires forall y :: y in rest ==> y == x || y in t[1..]
    ensures forall y :: y in rest ==> Rank(k, d, t[0]) <= Rank(k, d, y)
  {
    SortedHeadLowest(t, k, d);
    forall y | y in rest ensures Rank(k, d, t[0]) <= Rank(k, d, y) {
      if y != x {
        var j :| 0 <= j < |t[1..]| && t[1..][j] == y;
        assert t[j + 1] == y;
      }
    }
  }

  /** The head of a rank-ordered list has the lowest rank in it. */
  lemma SortedHeadLowest(t: seq<Product>, k: SortKey, d: Defaults)
    requires SortedBy(t, k, d) && |t| > 0
    ensures forall y :: y in t ==> Rank(k, d, t[0]) <= Rank(k, d, y)
  {
    forall y | y in t ensures Rank(k, d, t[0]) <= Rank(k, d, y) {
      var j :| 0 <= j < |t| && t[j] == y;
    }
  }

  /** One step of `Insert`, for proofs that should not unfold its body. */
  lemma InsertStep(x: Product, t: seq<Product>, k: SortKey, d: Defaults)
    requires SortedBy(t, k, d) && |t| > 0 && Rank(k, d, x) > Rank(k, d, t[0])
    ensures SortedBy(t[1..], k, d)
    ensures Insert(x, t, k, d) == [t[0]] + Insert(x, t[1..], k, d)
  {
    SortedTail(t, k, d);
  }

  lemma WithRankCons(x: Product, t: seq<Product>, k: SortKey, d: Defaults, v: int)
    ensures WithRank([x] + t, k, d, v) == (if Rank(k, d, x) == v then [x] else []) + WithRank(t, k, d, v)
  {
    assert ([x] + t)[1..] == t;
  }

  lemma {:induction false} InsertWithRank(x: Product, t: seq<Product>, k: SortKey, d: Defaults, v: int)
    requires SortedBy(t, k, d)
    ensures WithRank(Insert(x, t, k, d), k, d, v)
         == (if Rank(k, d, x) == v then [x] else []) + WithRank(t, k, d, v)
  {
    if |t| == 0 || Rank(k, d, x) <= Rank(k, d, t[0]) {
      WithRankCons(x, t, k, d, v);
    } else {
      SortedTail(t, k, d);
      InsertWithRank(x, t[1..], k, d, v);
      InsertWithRankStep(x, t, k, d, v);
    }
  }

  /** The inductive step of `InsertWithRank`: `x` passes the head, which has
      a different rank, so the two can trade places in every subsequence. */
  lemma InsertWithRankStep(x: Product, t: seq<Product>, k: SortKey, d: Defaults, v: int)
    requires SortedBy(t, k, d) && |t| > 0 && Rank(k, d, x) > Rank(k, d, t[0])
    requires SortedBy(t[1..], k, d)
    requires WithRank(Insert(x, t[1..], k, d), k, d, v)
          == (if Rank(k, d, x) == v then [x] else []) + WithRank(t[1..], k, d, v)
    ensures WithRank(Insert(x, t, k, d), k, d, v)
         == (if Rank(k, d, x) == v then [x] else []) + WithRank(t, k, d, v)
  {
    InsertStep(x, t, k, d);
    PassHead(t[0], x, Insert(x, t[1..], k, d), t[1..], k, d, v);
  }

  /** A bike `h` of another rank than `x` may stand before or after `x`
      without changing any subsequence of one rank. */
  lemma PassHead(h: Product, x: Product, rest: seq<Product>, tail: seq<Product>, k: SortKey, d: Defaults, v: int)
    requires Rank(k, d, h) != Rank(k, d, x)
    requires WithRank(rest, k, d, v) == (if Rank(k, d, x) == v then [x] else []) + WithRank(tail, k, d, v)
    ensures WithRank([h] + rest, k, d, v)
         == (if Rank(k, d, x) == v then [x] else []) + ((if Rank(k, d, h) == v then [h] else []) + WithRank(tail, k, d, v))
  {
    WithRankCons(h, rest, k, d, v);
    var w := WithRank(tail, k, d, v);
    var e: seq<Product> := [];
    if Rank(k, d, h) == v {
      assert e + w == w;
      assert WithRank(rest, k, d, v) == w;
      assert WithRank([h] + rest, k, d, v) == [h] + w;
      assert e + ([h] + w) == [h] + w;
    } else if Rank(k, d, x) == v {
      assert WithRank([h] + rest, k, d, v) == e + WithRank(rest, k, d, v);
      assert e + WithRank(rest, k, d, v) == [x] + w;
      assert e + w == w;
    } else {
      assert e + w == w;
      assert WithRank(rest, k, d, v) == w;
      assert WithRank([h] + rest, k, d, v) == e + w;
      assert e + (e + w) == w;
    }
  }

  /** A stable insertion sort by rank: the output is ordered by rank, is a
      permutation of the input, and keeps bikes of equal rank in their input
      order, which is what `Array.prototype.sort` guarantees (section 23.1.3.30
      of ECMA-262, 2023 edition). */
  function InsertionSort(s: seq<Product>, k: SortKey, d: Defaults): (r: seq<Product>)
    ensures multiset(r) == multiset(s)
    ensures SortedBy(r, k, d)
    ensures forall v :: WithRank(r, k, d, v) == WithRank(s, k, d, v)
  {
    if |s| == 0 then []
    else
      var rest := InsertionSort(s[1..], k, d);
      assert s == [s[0]] + s[1..];
      var r := Insert(s[0], rest, k, d);
      forall v ensures WithRank(r, k, d, v) == WithRank(s, k, d, v) {
        InsertWithRank(s[0], rest, k, d, v);
      }
      r
  }

  /** `_sortBikes`: the stable sort for a known key, the input unchanged
      otherwise. */
  function Sort(s: seq<Product>, k: SortKey, d: Defaults): (r: seq<Product>)
    ensures multiset(r) == multiset(s)
    ensures k == Unsorted ==> r == s
    ensures SortedBy(r, k, d)
    ensures forall v :: WithRank(r, k, d, v) == WithRank(s, k, d, v)
    ensures k == PriceLow ==> forall i, j :: 0 <= i < j < |r| ==> r[i].price <= r[j].price
    ensures k == PriceHigh ==> forall i, j :: 0 <= i < j < |r| ==> r[i].price >= r[j].price
  {
    if k == Unsorted then s else InsertionSort(s, k, d)
  }

  /** A stable sort is determined by its three properties: any list that is
      ordered by rank, a permutation of the input and stable is `Sort`'s
      output. */
  lemma {:induction false} SortIsUnique(s: seq<Product>, t: seq<Product>, k: SortKey, d: Defaults)
    requires SortedBy(t, k, d)
    requires forall v :: WithRank(t, k, d, v) == WithRank(s, k, d, v)
    ensures t == Sort(s, k, d)
  {
    var r := Sort(s, k, d);
    SortedUnique(t, r, k, d);
  }

  /** Two rank-ordered lists with the same subsequence at every rank start
      with bikes of the same rank. */
  lemma HeadRanksAgree(a: seq<Product>, b: seq<Product>, k: SortKey, d: Defaults)
    requires SortedBy(a, k, d) && SortedBy(b, k, d) && |a| > 0 && |b| > 0
    requires forall v :: WithRank(a, k, d, v) == WithRank(b, k, d, v)
    ensures Rank(k, d, a[0]) == Rank(k, d, b[0])
  {
    var ra, rb := Rank(k, d, a[0]), Rank(k, d, b[0]);
    SortedHeadLowest(a, k, d);
    SortedHeadLowest(b, k, d);
    WithRankMembers(a, k, d, ra);
    WithRankMembers(b, k, d, ra);
    WithRankMembers(a, k, d, rb);
    WithRankMembers(b, k, d, rb);
    assert a[0] in WithRank(a, k, d, ra);
    assert a[0] in b;
    assert b[0] in WithRank(b, k, d, rb);
    assert b[0] in a;
  }

  /** The subsequence of rank `v` of a list's tail: the list's own, less its
      head when the head has rank `v`. */
  lemma WithRankTail(a: seq<Product>, k: SortKey, d: Defaults, v: int)
    requires |a| > 0
    ensures WithRank(a[1..], k, d, v)
         == if Rank(k, d, a[0]) == v then WithRank(a, k, d, v)[1..] else WithRank(a, k, d, v)
  {
    if Rank(k, d, a[0]) == v {
      assert WithRank(a, k, d, v) == [a[0]] + WithRank(a[1..], k, d, v);
    } else {
      assert WithRank(a, k, d, v) == [] + WithRank(a[1..], k, d, v);
    }
  }

  /** Dropping equal heads leaves tails with the same subsequence at every
      rank. */
  lemma TailsAgree(a: seq<Product>, b: seq<Product>, k: SortKey, d: Defaults)
    requires |a| > 0 && |b| > 0 && Rank(k, d, a[0]) == Rank(k, d, b[0])
    requires forall v :: WithRank(a, k, d, v) == WithRank(b, k, d, v)
    ensures a[0] == b[0]
    ensures forall v :: WithRank(a[1..], k, d, v) == WithRank(b[1..], k, d, v)
  {
    var ra := Rank(k, d, a[0]);
    assert WithRank(a, k, d, ra) == [a[0]] + WithRank(a[1..], k, d, ra);
    assert WithRank(b, k, d, ra) == [b[0]] + WithRank(b[1..], k, d, ra);
    assert a[0] == WithRank(a, k, d, ra)[0] == WithRank(b, k, d, ra)[0] == b[0];
    forall v ensures WithRank(a[1..], k, d, v) == WithRank(b[1..], k, d, v) {
      WithRankTail(a, k, d, v);
      WithRankTail(b, k, d, v);
    }
  }

  /** The first bike of a list is among the bikes of its own rank. */
  lemma HeadHasRank(a: seq<Product>, k: SortKey, d: Defaults)
    requires |a| > 0
    ensures WithRank(a, k, d, Rank(k, d, a[0])) != []
  {
    assert WithRank(a, k, d, Rank(k, d, a[0]))[0] == a[0];
  }

  lemma SortedTail(a: seq<Product>, k: SortKey, d: Defaults)
    requires SortedBy(a, k, d) && |a| > 0
    ensures SortedBy(a[1..], k, d)
  {
    forall i, j | 0 <= i < j < |a| - 1 ensures Rank(k, d, a[1..][i]) <= Rank(k, d, a[1..][j]) {
      assert a[1..][i] == a[i + 1] && a[1..][j] == a[j + 1];
    }
  }

  /** Two rank-ordered lists with the same subsequence at every rank are
      equal. */
  lemma {:induction false} SortedUnique(a: seq<Product>, b: seq<Product>, k: SortKey, d: Defaults)
    requires SortedBy(a, k, d) && SortedBy(b, k, d)
    requires forall v :: WithRank(a, k, d, v) == WithRank(b, k, d, v)
    ensures a == b
    decreases |a|
  {
    if |a| == 0 || |b| == 0 {
      if |a| > 0 {
        HeadHasRank(a, k, d);
      } else if |b| > 0 {
        HeadHasRank(b, k, d);
      }
    } else {
      HeadRanksAgree(a, b, k, d);
      TailsAgree(a, b, k, d);
      SortedTail(a, k, d);
      SortedTail(b, k, d);
      SortedUnique(a[1..], b[1..], k, d);
      assert |a| == |b|;
      forall i | 0 <= i < |a| ensures a[i] == b[i] {
        if i > 0 {
          assert a[i] == a[1..][i - 1] && b[i] == b[1..][i - 1];
        }
      }
    }
  }

  /** One entry of the sort menu. */
  datatype SortOption = SortOption(caption: string, value: string, selected: bool)

  /** `sortOptions`: the four known orders, the current one selected. */
  function SortOptions(sortBy: string): (r: seq<SortOption>)
    ensures |r| == 4
    ensures forall i :: 0 <= i < |r| ==> ParseSortKey(r[i].value) != Unsorted
    ensures forall i :: 0 <= i < |r| ==> (r[i].selected <==> r[i].value == sortBy)
    ensures (exists i :: 0 <= i < |r| && r[i].selected) <==> ParseSortKey(sortBy) != Unsorted
  {
    var r := [
      SortOption("Popularity", "popularity", sortBy == "popularity"),
      SortOption("Price: Low to High", "price-low", sortBy == "price-low"),
      SortOption("Price: High to Low", "price-high", sortBy == "price-high"),
      SortOption("Newest Arrivals", "newest", sortBy == "newest")
    ];
    assert sortBy == "popularity" ==> r[0].selected;
    assert sortBy == "price-low" ==> r[1].selected;
    assert sortBy == "price-high" ==> r[2].selected;
    assert sortBy == "newest" ==> r[3].selected;
    r
  }

  /** Filtering and sorting as one step, before the page slice. */
  function FiltersAndSort(bikes: seq<Product>, f: FilterState, sortBy: string, d: Defaults): (r: seq<Product>)
    ensures multiset(r) == multiset(Select(bikes, f))
    ensures SortedBy(r, ParseSortKey(sortBy), d)
    ensures forall v :: WithRank(r, ParseSortKey(sortBy), d, v) == WithRank(Select(bikes, f), ParseSortKey(sortBy), d, v)
    ensures ParseSortKey(sortBy) == Unsorted ==> r == Select(bikes, f)
  {
    ApplyFiltersIsSelect(bikes, f);
    var selected := ApplyFilters(bikes, f);
    Sort(selected, ParseSortKey(sortBy), d)
  }

  // ---------------------------------------------------------------------------
  // The page slice

  /** `updateDisplayedBikes`: `filtered.slice((page - 1) * n, (page - 1) * n + n)`. */
  function PageSlice(s: seq<Product>, page: int, n: int): (r: seq<Product>)
    ensures page >= 1 && n >= 0 ==> |r| <= n
    ensures page >= 1 && n >= 0 && (page - 1) * n >= |s| ==> r == []
    ensures page >= 1 && n >= 0 && page * n <= |s| ==> r == s[(page - 1) * n .. page * n]
    ensures page >= 1 && n >= 0 && (page - 1) * n <= |s| < page * n ==> r == s[(page - 1) * n ..]
  {
    JsSlice(s, (page - 1) * n, (page - 1) * n + n)
  }

  // ---------------------------------------------------------------------------
  // The active-filter record

  /** The `{ filterType, value }` detail of a `filterchange` event, by the key
      it names; `OtherChange` is a key no filter stage reads. */
  datatype FilterChange =
    | TypeChange(bikeType: string)
    | BrandChange(brand: string)
    | PriceChange(range: PriceRange)
    | OtherChange(name: string)

  /** `{ ...activeFilters, [filterType]: value }`. */
  function SetFilter(f: FilterState, c: FilterChange): (r: FilterState)
    ensures c.TypeChange? ==> r == f.(bikeType := c.bikeType)
    ensures c.BrandChange? ==> r == f.(brand := c.brand)
    ensures c.PriceChange? ==> r == f.(priceRange := c.range)
    ensures c.OtherChange? ==> r == f
  {
    match c
    case TypeChange(t) => f.(bikeType := t)
    case BrandChange(b) => f.(brand := b)
    case PriceChange(pr) => f.(priceRange := pr)
    case OtherChange(_) => f
  }

  /** `handleClearFilter`: `priceRange` goes back to the default range, any
      other key to the empty string (a key no stage reads changes nothing). */
  function ClearFilter(f: FilterState, filterType: string, d: Defaults): (r: FilterState)
    ensures filterType == "priceRange" ==> r.priceRange == DefaultRange(d)
    ensures filterType == "type" ==> r.bikeType == ""
    ensures filterType == "brand" ==> r.brand == ""
    ensures filterType != "type" ==> r.bikeType == f.bikeType
    ensures filterType != "brand" ==> r.brand == f.brand
    ensures filterType != "priceRange" ==> r.priceRange == f.priceRange
  {
    if filterType == "priceRange" then f.(priceRange := DefaultRange(d))
    else if filterType == "type" then f.(bikeType := "")
    else if filterType == "brand" then f.(brand := "")
    else f
  }

  /** `handleClearAllFilters`: the defaults, whatever was set before. */
  function ClearAll(f: FilterState, d: Defaults): (r: FilterState)
    ensures ActiveFilterCount(r, d) == 0
    ensures forall b :: Matches(b, r) <==> 0 <= b.price <= 100 * d.upperPrice
  {
    DefaultFilters(d)
  }

  /** Whether the price range differs from the full default range in a way
      that can exclude a bike. */
  predicate PriceFilterActive(f: FilterState, d: Defaults) {
    f.priceRange.min > 0 || f.priceRange.max < d.upperPrice
  }

  /** `activeFilterCount`: one for each of type, brand and price range in use. */
  function ActiveFilterCount(f: FilterState, d: Defaults): (n: nat)
    ensures n <= 3
    ensures n == 0 <==> f.bikeType == "" && f.brand == "" && !PriceFilterActive(f, d)
    ensures n == 3 <==> f.bikeType != "" && f.brand != "" && PriceFilterActive(f, d)
  {
    (if f.bikeType != "" then 1 else 0)
    + (if f.brand != "" then 1 else 0)
    + (if PriceFilterActive(f, d) then 1 else 0)
  }

  /** `hasActiveFilters` of the current store:
      `type || brand || min > 0 || max < 10000`, read as a boolean. */
  function HasActiveFilters(f: FilterState, d: Defaults): (r: bool)
    ensures r <==> ActiveFilterCount(f, d) > 0
  {
    f.bikeType != "" || f.brand != "" || f.priceRange.min > 0 || f.priceRange.max < d.upperPrice
  }

  /** `mobileFilterButtonText`: the bare label without an active filter,
      otherwise the label followed by the count in parentheses. */
  function MobileFilterButtonText(f: FilterState, d: Defaults): (r: string)
    ensures ActiveFilterCount(f, d) == 0 <==> r == "Filter"
    ensures ActiveFilterCount(f, d) > 0 ==>
      && |r| >= 10 && r[..8] == "Filter (" && r[|r| - 1] == ')'
      && ParseInt(r[8..|r| - 1]) == Some(ActiveFilterCount(f, d))
  {
    var n := ActiveFilterCount(f, d);
    if n > 0 then
      var r := "Filter (" + IntToString(n) + ")";
      assert r[8..|r| - 1] == IntToString(n);
      ParseIntRoundTrip(n);
      r
    else "Filter"
  }
}
