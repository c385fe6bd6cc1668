/**
 * The home page: the current search, the page being shown, and the pagination bar, whose window
 * is built by pushing onto a list in a counting loop.
 */
module HomePage {
  import opened Wrappers
  import opened FrontendTypes

  /** One entry of the pagination bar. */
  datatype PageItem = Page(n: int) | Ellipsis

  const PageSize := 8
  const MaxVisiblePages := 5

  /** The page numbers `lo..hi`, empty when `lo > hi`. */
  function Numbers(lo: int, hi: int): (r: seq<PageItem>)
    ensures |r| == if lo <= hi then hi - lo + 1 else 0
    ensures forall k | 0 <= k < |r| :: r[k] == Page(lo + k)
  {
    if lo <= hi then seq(hi - lo + 1, k => Page(lo + k)) else []
  }

  function Max(a: int, b: int): int { if a < b then b else a }
  function Min(a: int, b: int): int { if a < b then a else b }

  /**
   * The pagination window: nothing without a page count, every page up to five pages, otherwise
   * the first page, an ellipsis when the current page is past 3, the current page and its
   * neighbours (clipped to 2..total-1), an ellipsis when the current page is before total-2, and
   * the last page.
   */
  function PageWindow(page: int, totalPages: Option<nat>): seq<PageItem> {
    if totalPages.None? || totalPages.value == 0 then []
    else
      var total := totalPages.value;
      if total <= MaxVisiblePages then Numbers(1, total)
      else
        [Page(1)]
        + (if page > 3 then [Ellipsis] else [])
        + Numbers(Max(2, page - 1), Min(total - 1, page + 1))
        + (if page < total - 2 then [Ellipsis] else [])
        + (if total > 1 then [Page(total)] else [])
  }

  predicate Increasing(r: seq<PageItem>) {
    forall i, j | 0 <= i < j < |r| && r[i].Page? && r[j].Page? :: r[i].n < r[j].n
  }

  /** Up to five pages, the window is every page, in order, without ellipses. */
  lemma SmallWindowListsEveryPage(page: int, total: nat)
    requires 1 <= total <= 5
    ensures var r := PageWindow(page, Some(total));
      |r| == total && forall k | 0 <= k < total :: r[k] == Page(k + 1)
  {
  }

  /**
   * Past five pages the window starts with page 1 and ends with the last page, its numbers
   * increase strictly and stay within 1..total, and it has at most seven entries.
   */
  lemma {:induction false} LargeWindowShape(page: int, total: nat)
    requires total > 5
    ensures var r := PageWindow(page, Some(total));
      && 3 <= |r| <= 7 && r[0] == Page(1) && r[|r| - 1] == Page(total)
      && Increasing(r)
      && forall k | 0 <= k < |r| && r[k].Page? :: 1 <= r[k].n <= total
  {
    var r := PageWindow(page, Some(total));
    var lead := if page > 3 then [Ellipsis] else [];
    var middle := Numbers(Max(2, page - 1), Min(total - 1, page + 1));
    var trail := if page < total - 2 then [Ellipsis] else [];
    assert r == [Page(1)] + lead + middle + trail + [Page(total)];
    var m := 1 + |lead|;
    forall k | 0 <= k < |r| && r[k].Page?
      ensures (k == 0 ==> r[k].n == 1) && (k == |r| - 1 ==> r[k].n == total)
      ensures (0 < k < |r| - 1 ==> m <= k < m + |middle| && r[k] == middle[k - m] && 2 <= r[k].n <= total - 1)
    {
      if m <= k < m + |middle| {
        assert r[k] == middle[k - m];
      }
    }
  }

  /**
   * With the current page inside 1..total, the window lists the current page, a leading ellipsis
   * stands second exactly when the page is past 3, and a trailing one stands second to last
   * exactly when the page is before total-2.
   */
  lemma {:induction false} WindowEllipses(page: int, total: nat)
    requires total > 5 && 1 <= page <= total
    ensures var r := PageWindow(page, Some(total));
      && Page(page) in r
      && (r[1] == Ellipsis <==> page > 3)
      && (r[|r| - 2] == Ellipsis <==> page < total - 2)
  {
    var r := PageWindow(page, Some(total));
    var lead := if page > 3 then [Ellipsis] else [];
    var lo, hi := Max(2, page - 1), Min(total - 1, page + 1);
    var middle := Numbers(lo, hi);
    var trail := if page < total - 2 then [Ellipsis] else [];
    assert r == [Page(1)] + lead + middle + trail + [Page(total)];
    assert lo <= hi;
    assert r[1] == (if page > 3 then Ellipsis else middle[0]);
    assert r[|r| - 2] == (if page < total - 2 then Ellipsis else middle[|middle| - 1]);
    if page == 1 {
      assert r[0] == Page(page);
    } else if page == total {
      assert r[|r| - 1] == Page(page);
    } else {
      assert middle[page - lo] == Page(page);
      assert r[1 + |lead| + page - lo] == Page(page);
    }
  }

  /** The page request a search sends: the search's parameters, a page and the fixed size. */
  datatype PageRequest = PageRequest(params: SearchParams, page: int, size: int)

  /** What the search endpoint answers with. */
  datatype PageResponse = PageResponse(content: seq<RestaurantSummary>, totalPages: nat, first: bool, last: bool)

  /** `targetPage || page`: a missing or zero target falls back to the current page. */
  function RequestedPage(targetPage: Option<int>, page: int): (r: int)
    ensures targetPage.Some? && targetPage.value != 0 ==> r == targetPage.value
    ensures targetPage.None? || targetPage.value == 0 ==> r == page
  {
    if targetPage.Some? && targetPage.value != 0 then targetPage.value else page
  }

  class Home {
    var loading: bool
    var restaurants: seq<RestaurantSummary>
    var page: int
    var totalPages: Option<nat>
    var first: bool
    var last: bool
    var currentSearchParams: SearchParams

    constructor ()
      ensures loading && restaurants == [] && page == 1 && totalPages.None? && first && !last
      ensures currentSearchParams == SearchParams(None, None)
    {
      loading := true;
      restaurants := [];
      page := 1;
      totalPages := None;
      first := true;
      last := false;
      currentSearchParams := SearchParams(None, None);
    }

    /** `getPageNumbers`, built entry by entry as the source builds it. */
    method GetPageNumbers() returns (r: seq<PageItem>)
      ensures r == PageWindow(page, totalPages)
    {
      if totalPages.None? || totalPages.value == 0 {
        return [];
      }
      var total := totalPages.value;
      if total <= MaxVisiblePages {
        return Numbers(1, total);
      }
      r := [Page(1)];
      if page > 3 {
        r := r + [Ellipsis];
      }
      var prefix := r;
      var lo, hi := Max(2, page - 1), Min(total - 1, page + 1);
      var i := lo;
      while i <= hi
        invariant lo <= i <= Max(lo, hi + 1)
        invariant r == prefix + Numbers(lo, i - 1)
        decreases hi - i
      {
        r := r + [Page(i)];
        i := i + 1;
      }
      if page < total - 2 {
        r := r + [Ellipsis];
      }
      if total > 1 {
        r := r + [Page(total)];
      }
    }

    /**
     * `searchRestaurants`: remembers the parameters and requests page `targetPage || page` of
     * size 8.  `ready` says whether the API service exists (otherwise the error is caught and
     * nothing is requested); `response` is the answer, and a missing one leaves the results as
     * they were.
     */
    method SearchRestaurants(params: SearchParams, targetPage: Option<int>, ready: bool, response: Option<PageResponse>)
      returns (request: Option<PageRequest>)
      modifies this
      ensures currentSearchParams == params && page == old(page) && !loading
      ensures !ready ==> request.None?
      ensures ready ==> request == Some(PageRequest(params, RequestedPage(targetPage, old(page)), PageSize))
      ensures ready && response.Some? ==>
        && totalPages == Some(response.value.totalPages) && first == response.value.first
        && last == response.value.last && restaurants == response.value.content
      ensures !ready || response.None? ==>
        totalPages == old(totalPages) && first == old(first) && last == old(last) && restaurants == old(restaurants)
    {
      loading := true;
      currentSearchParams := params;
      var paginated := PageRequest(params, RequestedPage(targetPage, page), PageSize);
      if !ready {
        loading := false;
        return None;
      }
      request := Some(paginated);
      if response.Some? {
        totalPages := Some(response.value.totalPages);
        first := response.value.first;
        last := response.value.last;
        restaurants := response.value.content;
      }
      loading := false;
    }

    /**
     * `handlePageChange`: shows the new page and re-runs the last search on it.  The search reads
     * the page from before the change, which only matters when the new page is 0.
     */
    method HandlePageChange(newPage: int, ready: bool, response: Option<PageResponse>)
      returns (request: Option<PageRequest>)
      modifies this
      ensures page == newPage && currentSearchParams == old(currentSearchParams)
      ensures ready ==> request == Some(PageRequest(old(currentSearchParams), RequestedPage(Some(newPage), old(page)), PageSize))
      ensures ready && newPage != 0 ==> request.value.page == newPage
      ensures !ready ==> request.None?
      ensures !loading
      ensures ready && response.Some? ==>
        && totalPages == Some(response.value.totalPages) && first == response.value.first
        && last == response.value.last && restaurants == response.value.content
      ensures !ready || response.None? ==>
        totalPages == old(totalPages) && first == old(first) && last == old(last) && restaurants == old(restaurants)
    {
      // React applies `setPage` after the handler returns, so the search still sees the old page
      request := SearchRestaurants(currentSearchParams, Some(newPage), ready, response);
      page := newPage;
    }
  }
}
