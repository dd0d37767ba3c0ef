/** The pagination bar (src/modules/my/bikePagination/bikePagination.js): the
    page count, the five-button sliding window, its memo, the "Showing a-b of
    n" line and the navigation events it raises. The bar receives the current
    page, the number of filtered bikes and the page size from the store. */
module Pagination {
  import opened Common
  import opened Catalogue
  import opened Pipeline

  /** `MAX_VISIBLE_PAGES`. */
  const MaxVisiblePages: int := 5

  const ActiveClass: string := "slds-button slds-button_brand"
  const InactiveClass: string := "slds-button slds-button_neutral"

  /** `totalPages`: `Math.ceil(totalItems / itemsPerPage)`. */
  function TotalPages(totalItems: nat, itemsPerPage: int): (t: nat)
    requires itemsPerPage > 0
    ensures (t - 1) * itemsPerPage < totalItems <= t * itemsPerPage || (t == 0 && totalItems == 0)
    ensures t == 0 <==> totalItems == 0
  {
    (totalItems + itemsPerPage - 1) / itemsPerPage
  }

  lemma MulMono(a: int, b: int, n: int)
    requires a <= b && n >= 0
    ensures a * n <= b * n
  {
    assert b * n - a * n == (b - a) * n;
  }

  /** The page count is the least number of pages that holds every item. */
  lemma TotalPagesIsLeast(totalItems: nat, itemsPerPage: int, t: nat)
    requires itemsPerPage > 0 && totalItems <= t * itemsPerPage
    ensures TotalPages(totalItems, itemsPerPage) <= t
  {
    var p := TotalPages(totalItems, itemsPerPage);
    if t + 1 <= p {
      MulMono(t, p - 1, itemsPerPage);
    }
  }

  /** `hasPreviousPage`. */
  predicate HasPreviousPage(currentPage: int) {
    currentPage > 1
  }

  /** `hasNextPage`. */
  predicate HasNextPage(currentPage: int, totalItems: nat, itemsPerPage: int)
    requires itemsPerPage > 0
  {
    currentPage < TotalPages(totalItems, itemsPerPage)
  }

  /** `showPagination`: more than one page. */
  predicate ShowPagination(totalItems: nat, itemsPerPage: int)
    requires itemsPerPage > 0
  {
    TotalPages(totalItems, itemsPerPage) > 1
  }

  /** Page `page` of the list is non-empty exactly when it starts before the
      end. */
  lemma PageSliceNonEmpty(items: seq<Product>, page: int, n: int)
    requires n > 0 && page >= 1
    ensures PageSlice(items, page, n) != [] <==> (page - 1) * n < |items|
  {
    MulMono(0, page - 1, n);
  }

  /** The "next" button is enabled on a real page exactly when the store would
      show a non-empty page after it. */
  lemma HasNextPageIffMoreItems(items: seq<Product>, currentPage: int, itemsPerPage: int)
    requires itemsPerPage > 0 && currentPage >= 1
    ensures HasNextPage(currentPage, |items|, itemsPerPage) <==> PageSlice(items, currentPage + 1, itemsPerPage) != []
  {
    var t := TotalPages(|items|, itemsPerPage);
    PageSliceNonEmpty(items, currentPage + 1, itemsPerPage);
    if currentPage < t {
      MulMono(currentPage, t - 1, itemsPerPage);
    } else {
      MulMono(t, currentPage, itemsPerPage);
    }
  }

  /** The "previous" button is enabled on a real page exactly when the store
      would show a non-empty page before it (page 0 slices nothing). */
  lemma HasPreviousPageIffEarlierItems(items: seq<Product>, currentPage: int, itemsPerPage: int)
    requires itemsPerPage > 0 && 1 <= currentPage <= TotalPages(|items|, itemsPerPage)
    ensures HasPreviousPage(currentPage) <==> PageSlice(items, currentPage - 1, itemsPerPage) != []
  {
    var t := TotalPages(|items|, itemsPerPage);
    if currentPage == 1 {
      assert SliceIndex(0, |items|) == 0;
    } else {
      PageSliceNonEmpty(items, currentPage - 1, itemsPerPage);
      MulMono(currentPage - 2, t - 1, itemsPerPage);
    }
  }

  /** The bar is shown exactly when the list does not fit on one page, that
      is, when a second page would show some bike. */
  lemma ShowPaginationIffSecondPage(items: seq<Product>, itemsPerPage: int)
    requires itemsPerPage > 0
    ensures ShowPagination(|items|, itemsPerPage) <==> |items| > itemsPerPage
    ensures ShowPagination(|items|, itemsPerPage) <==> PageSlice(items, 2, itemsPerPage) != []
  {
    PageSliceNonEmpty(items, 2, itemsPerPage);
    var t := TotalPages(|items|, itemsPerPage);
    if t > 1 {
      MulMono(1, t - 1, itemsPerPage);
    } else {
      MulMono(t, 1, itemsPerPage);
    }
  }

  /** One button of the window (`_createPageObject`). */
  datatype PageButton = PageButton(number: int, isActive: bool, cssClass: string, ariaLabel: string)

  function MakeButton(number: int, currentPage: int): (b: PageButton)
    ensures b.number == number
    ensures b.isActive <==> number == currentPage
    ensures b.cssClass == (if b.isActive then ActiveClass else InactiveClass)
  {
    var active := number == currentPage;
    PageButton(number, active,
      if active then ActiveClass else InactiveClass,
      if active then "Current page, page " + IntToString(number) else "Go to page " + IntToString(number))
  }

  /** Buttons for the pages `first .. last`, in order. */
  function ButtonRange(first: int, last: int, currentPage: int): (r: seq<PageButton>)
    ensures |r| == if last < first then 0 else last - first + 1
    ensures forall i :: 0 <= i < |r| ==> r[i] == MakeButton(first + i, currentPage)
    ensures forall i :: 0 <= i < |r| ==> r[i].number == first + i && (r[i].isActive <==> first + i == currentPage)
    ensures first <= currentPage <= last ==> r[currentPage - first].number == currentPage
  {
    if last < first then [] else seq(last - first + 1, i => MakeButton(first + i, currentPage))
  }

  /** The first and last page of the window: all pages when there are at most
      five; otherwise five pages centred on the current one where possible,
      pushed back inside `1 .. totalPages` at either end. */
  function WindowBounds(currentPage: int, totalPages: int): (w: (int, int))
    ensures totalPages <= MaxVisiblePages ==> w == (1, totalPages)
    ensures totalPages > MaxVisiblePages ==> 1 <= w.0 && w.1 <= totalPages && w.1 - w.0 + 1 == MaxVisiblePages
    ensures 1 <= currentPage <= totalPages ==> w.0 <= currentPage <= w.1
  {
    if totalPages <= MaxVisiblePages then (1, totalPages)
    else
      var half := MaxVisiblePages / 2;
      var start := Max(1, currentPage - half);
      var end := Min(totalPages, start + MaxVisiblePages - 1);
      if end - start + 1 < MaxVisiblePages then (Max(1, end - MaxVisiblePages + 1), end)
      else (start, end)
  }

  function Max(a: int, b: int): int { if a >= b then a else b }
  function Min(a: int, b: int): int { if a <= b then a else b }

  /** `_calculatePages`. */
  function CalculatePages(currentPage: int, totalPages: int): (r: seq<PageButton>)
    ensures totalPages <= MaxVisiblePages ==>
      |r| == Max(totalPages, 0) && forall i :: 0 <= i < |r| ==> r[i].number == i + 1
    ensures totalPages > MaxVisiblePages ==>
      && |r| == MaxVisiblePages
      && 1 <= r[0].number && r[|r| - 1].number <= totalPages
      && forall i :: 0 <= i < |r| ==> r[i].number == r[0].number + i
    ensures forall i :: 0 <= i < |r| ==> (r[i].isActive <==> r[i].number == currentPage)
    ensures forall i :: 0 <= i < |r| ==> r[i] == MakeButton(r[i].number, currentPage)
  {
    var w := WindowBounds(currentPage, totalPages);
    if totalPages <= MaxVisiblePages then
      assert w == (1, totalPages);
      ButtonRange(1, totalPages, currentPage)
    else
      assert 1 <= w.0 && w.1 <= totalPages && w.1 - w.0 + 1 == MaxVisiblePages;
      ButtonRange(w.0, w.1, currentPage)
  }

  /** A real current page always has its button in the window. */
  lemma CurrentPageShown(currentPage: int, totalPages: int)
    requires 1 <= currentPage <= totalPages
    ensures var r := CalculatePages(currentPage, totalPages);
      exists i :: 0 <= i < |r| && r[i].number == currentPage && r[i].isActive
  {
    var w := WindowBounds(currentPage, totalPages);
    var r := CalculatePages(currentPage, totalPages);
    assert r == ButtonRange(w.0, w.1, currentPage);
    assert r[currentPage - w.0].number == currentPage;
  }

  /** At most one button is active: the one for the current page. */
  lemma AtMostOneActive(currentPage: int, totalPages: int, i: int, j: int)
    requires var r := CalculatePages(currentPage, totalPages); 0 <= i < |r| && 0 <= j < |r|
    requires CalculatePages(currentPage, totalPages)[i].isActive && CalculatePages(currentPage, totalPages)[j].isActive
    ensures i == j
  {
    var r := CalculatePages(currentPage, totalPages);
    if totalPages <= MaxVisiblePages {
      assert r[i].number == i + 1 && r[j].number == j + 1;
    } else {
      assert r[i].number == r[0].number + i && r[j].number == r[0].number + j;
    }
  }

  /** The memo behind `pages`: the last list built and the inputs it was built
      for; `None` before the first call. An empty list is truthy, so it counts
      as cached. */
  datatype PageCache = PageCache(cached: Option<seq<PageButton>>, lastCurrentPage: int, lastTotalPages: int)

  /** What the cache holds is the window for the inputs it records. */
  predicate Coherent(c: PageCache) {
    c.cached.Some? ==> c.cached.value == CalculatePages(c.lastCurrentPage, c.lastTotalPages)
  }

  /** `pages`: rebuild when nothing is cached or either input changed. */
  function Pages(c: PageCache, currentPage: int, totalPages: int): (r: (seq<PageButton>, PageCache))
    ensures Coherent(c) ==> r.0 == CalculatePages(currentPage, totalPages)
    ensures Coherent(c) ==> Coherent(r.1)
    ensures r.1.cached == Some(r.0)
    ensures r.1.lastCurrentPage == currentPage && r.1.lastTotalPages == totalPages
  {
    if c.cached.None? || c.lastCurrentPage != currentPage || c.lastTotalPages != totalPages then
      var pages := CalculatePages(currentPage, totalPages);
      (pages, PageCache(Some(pages), currentPage, totalPages))
    else
      (c.cached.value, c)
  }

  /** `paginationInfo`, before it is rendered to text. */
  datatype Info = NoBikes | Showing(first: int, last: int, total: int, itemLabel: string)

  function PaginationInfo(currentPage: int, totalItems: nat, itemsPerPage: int): (r: Info)
    ensures r.NoBikes? <==> totalItems == 0
    ensures r.Showing? ==>
      && r.first == (currentPage - 1) * itemsPerPage + 1
      && r.last == Min(currentPage * itemsPerPage, totalItems)
      && r.total == totalItems
      && (r.itemLabel == "bike" <==> totalItems == 1)
  {
    if totalItems == 0 then NoBikes
    else
      Showing((currentPage - 1) * itemsPerPage + 1, Min(currentPage * itemsPerPage, totalItems),
              totalItems, if totalItems == 1 then "bike" else "bikes")
  }

  /** The text of `paginationInfo`. */
  function InfoText(info: Info): (s: string)
    ensures info.NoBikes? <==> s == "No bikes found"
  {
    match info
    case NoBikes => "No bikes found"
    case Showing(a, b, n, noun) =>
      "Showing " + IntToString(a) + "-" + IntToString(b) + " of " + IntToString(n) + " " + noun
  }

  /** On a page that exists, the line names exactly the bikes the store shows:
      positions `first .. last` (counted from 1) of the filtered list. */
  lemma {:induction false} InfoMatchesPage(items: seq<Product>, currentPage: int, itemsPerPage: int)
    requires itemsPerPage > 0 && 1 <= currentPage <= TotalPages(|items|, itemsPerPage)
    ensures var info := PaginationInfo(currentPage, |items|, itemsPerPage);
      && info.Showing?
      && 1 <= info.first <= info.last <= |items|
      && PageSlice(items, currentPage, itemsPerPage) == items[info.first - 1 .. info.last]
  {
    var t := TotalPages(|items|, itemsPerPage);
    var n := itemsPerPage;
    assert (currentPage - 1) * n <= (t - 1) * n by {
      assert currentPage - 1 <= t - 1;
    }
    assert currentPage * n == (currentPage - 1) * n + n;
  }

  /** The event a control raises: nothing, or `navigate` with a page that is
      `None` when it is `NaN`. */
  datatype Navigate = NoEvent | NavigateTo(page: Option<int>)

  /** `handlePrevious`: always raises the page before, enabled or not, just
      as a click on that page's button would. */
  function Previous(currentPage: int): (e: Navigate)
    ensures e == NavigateTo(Some(currentPage - 1))
    ensures e == PageClick(IntToString(currentPage - 1), currentPage)
  {
    ParseIntRoundTrip(currentPage - 1);
    NavigateTo(Some(currentPage - 1))
  }

  /** `handleNext`: the page after, as a click on that page's button. */
  function Next(currentPage: int): (e: Navigate)
    ensures e == NavigateTo(Some(currentPage + 1))
    ensures e == PageClick(IntToString(currentPage + 1), currentPage)
  {
    ParseIntRoundTrip(currentPage + 1);
    NavigateTo(Some(currentPage + 1))
  }

  /** `handlePageClick`: parse the button's `data-page`; raise it unless it is
      the current page (`NaN` is never equal, so it is raised). */
  function PageClick(dataPage: string, currentPage: int): (e: Navigate)
    ensures e == NoEvent <==> ParseInt(dataPage) == Some(currentPage)
    ensures e != NoEvent ==> e.page == ParseInt(dataPage)
  {
    var page := ParseInt(dataPage);
    if page != Some(currentPage) then NavigateTo(page) else NoEvent
  }

  /** A click on the button for page `p` raises `p` exactly when `p` is not
      the current page; the button's own label carries the number intact. */
  lemma ClickOnButton(p: int, currentPage: int)
    ensures PageClick(IntToString(p), currentPage) == if p == currentPage then NoEvent else NavigateTo(Some(p))
  {
    ParseIntRoundTrip(p);
  }

  /** Pages `1 .. k`, concatenated. */
  function PagesUpTo(items: seq<Product>, itemsPerPage: int, k: nat): seq<Product> {
    if k == 0 then [] else PagesUpTo(items, itemsPerPage, k - 1) + PageSlice(items, k, itemsPerPage)
  }

  /** Walking through every page shows each filtered bike exactly once, in
      order. */
  /** Page `page` is the stretch of the list from its first index to the end
      of the page, both cut off at the list's length. */
  lemma PageSliceClamped(items: seq<Product>, page: int, n: int)
    requires page >= 1 && n > 0
    ensures 0 <= (page - 1) * n <= page * n
    ensures PageSlice(items, page, n) == items[Min((page - 1) * n, |items|)..Min(page * n, |items|)]
  {
    MulMono(0, page - 1, n);
    assert page * n == (page - 1) * n + n;
  }

  lemma {:induction false} PagesCoverList(items: seq<Product>, itemsPerPage: int, k: nat)
    requires itemsPerPage > 0
    ensures PagesUpTo(items, itemsPerPage, k) == items[..Min(k * itemsPerPage, |items|)]
  {
    var n := itemsPerPage;
    if k > 0 {
      PagesCoverList(items, n, k - 1);
      PageSliceClamped(items, k, n);
      var a := Min((k - 1) * n, |items|);
      var b := Min(k * n, |items|);
      assert items[..b] == items[..a] + items[a..b];
    }
  }

  lemma AllPagesCoverList(items: seq<Product>, itemsPerPage: int)
    requires itemsPerPage > 0
    ensures PagesUpTo(items, itemsPerPage, TotalPages(|items|, itemsPerPage)) == items
  {
    PagesCoverList(items, itemsPerPage, TotalPages(|items|, itemsPerPage));
    assert items[..|items|] == items;
  }
}
