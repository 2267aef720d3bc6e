/** The pagination of the branch table: the number of pages, the page a
    request lands on, the slice of rows one page shows, and the counters and
    button states `updatePagination` displays. */
module Paging {
  import opened Wrappers

  function Min(a: int, b: int): int
  {
    if a <= b then a else b
  }

  function Max(a: int, b: int): int
  {
    if a >= b then a else b
  }

  /** `Math.ceil(n / size)`: the least number of pages of `size` rows that
      holds `n` rows. */
  function TotalPages(n: nat, size: nat): (r: nat)
    requires size >= 1
    ensures n <= r * size
    ensures r == 0 || (r - 1) * size < n
    ensures r == 0 <==> n == 0
  {
    TotalPagesBounds(n, size);
    (n + size - 1) / size
  }

  lemma TotalPagesBounds(n: nat, size: nat)
    requires size >= 1
    ensures var r := (n + size - 1) / size;
      n <= r * size && (r == 0 || (r - 1) * size < n)
  {
    var r := (n + size - 1) / size;
    var rest := (n + size - 1) % size;
    assert n + size - 1 == r * size + rest;
    assert (r - 1) * size == r * size - size;
  }

  /** `Math.max(1, Math.min(page, totalPages))`: the page `goToPage` lands on. */
  function ClampPage(page: int, totalPages: nat): (r: int)
    ensures r >= 1
    ensures totalPages >= 1 ==> r <= totalPages
    ensures 1 <= page <= totalPages ==> r == page
    ensures page < 1 ==> r == 1
    ensures page > totalPages ==> r == Max(1, totalPages)
  {
    Max(1, Min(page, totalPages))
  }

  /** Clamping a page that is already in range leaves it alone; clamping is
      idempotent. */
  lemma ClampPageIdempotent(page: int, totalPages: nat)
    ensures ClampPage(ClampPage(page, totalPages), totalPages) == ClampPage(page, totalPages)
  {
  }

  /** `items.slice(start, Math.min(start + size, items.length))` with
      `start = (page - 1) * size`: the rows page `page` shows. */
  function PageSlice<T>(items: seq<T>, page: int, size: nat): (r: seq<T>)
    requires page >= 1 && size >= 1
    ensures |r| <= size
    ensures (page - 1) * size < |items| ==>
      r == items[(page - 1) * size..Min(page * size, |items|)]
    ensures (page - 1) * size >= |items| ==> r == []
  {
    var start := (page - 1) * size;
    assert start + size == page * size;
    if start >= |items| then [] else items[start..Min(start + size, |items|)]
  }

  /** The rows of pages 1 to `k`, one page after the other. */
  function PagesUpTo<T>(items: seq<T>, size: nat, k: nat): seq<T>
    requires size >= 1
  {
    if k == 0 then [] else PagesUpTo(items, size, k - 1) + PageSlice(items, k, size)
  }

  /** The first `k` pages are exactly the first `k * size` rows. */
  lemma {:induction false} PagesUpToPrefix<T>(items: seq<T>, size: nat, k: nat)
    requires size >= 1
    ensures PagesUpTo(items, size, k) == items[..Min(k * size, |items|)]
  {
    if k > 0 {
      PagesUpToPrefix(items, size, k - 1);
      var start := (k - 1) * size;
      var stop := k * size;
      assert stop == start + size;
      if start < |items| {
        assert items[..start] + items[start..Min(stop, |items|)] == items[..Min(stop, |items|)];
      }
    }
  }

  /** Paging loses no row and repeats none: pages 1 to `TotalPages` laid end
      to end are the whole list. */
  lemma PagesCoverAll<T>(items: seq<T>, size: nat)
    requires size >= 1
    ensures PagesUpTo(items, size, TotalPages(|items|, size)) == items
  {
    PagesUpToPrefix(items, size, TotalPages(|items|, size));
  }

  lemma MulMonotone(a: int, b: int, size: nat)
    requires a <= b
    ensures a * size <= b * size
  {
    assert b * size - a * size == (b - a) * size;
  }

  /** Every page in range shows at least one row, and every page before the
      last shows a full page. */
  lemma PagesInRangeAreFilled<T>(items: seq<T>, page: int, size: nat)
    requires size >= 1 && 1 <= page <= TotalPages(|items|, size)
    ensures |PageSlice(items, page, size)| >= 1
    ensures page < TotalPages(|items|, size) ==> |PageSlice(items, page, size)| == size
  {
    var total := TotalPages(|items|, size);
    var start := (page - 1) * size;
    MulMonotone(page - 1, total - 1, size);
    assert start < |items|;
    assert page * size == start + size;
    if page < total {
      MulMonotone(page, total - 1, size);
    }
  }

  /** What `updatePagination` shows: the 1-based numbers of the first and
      last row on the page, the row and page counts, and which of the
      first/previous/next/last buttons are disabled. */
  datatype PageInfo = PageInfo(
    startItem: int, endItem: int, totalItems: nat, totalPages: nat,
    firstDisabled: bool, prevDisabled: bool, nextDisabled: bool, lastDisabled: bool)

  /** `updatePagination`; with no rows it shows nothing (None). */
  function Pagination(totalItems: nat, currentPage: int, size: nat): (r: Option<PageInfo>)
    requires size >= 1
    ensures r.Some? <==> totalItems > 0
    ensures r.Some? ==> r.value.totalItems == totalItems && r.value.totalPages == TotalPages(totalItems, size)
    ensures r.Some? ==> (r.value.prevDisabled <==> currentPage == 1) && r.value.firstDisabled == r.value.prevDisabled
    ensures r.Some? ==> (r.value.nextDisabled <==> currentPage == r.value.totalPages) && r.value.lastDisabled == r.value.nextDisabled
  {
    if totalItems == 0 then None
    else
      var totalPages := TotalPages(totalItems, size);
      Some(PageInfo(
        (currentPage - 1) * size + 1, Min(currentPage * size, totalItems), totalItems, totalPages,
        currentPage == 1, currentPage == 1, currentPage == totalPages, currentPage == totalPages))
  }

  /** On a page in range the counters name exactly the rows the table shows:
      row `startItem` is the page's first row and the page holds
      `endItem - startItem + 1` rows. */
  lemma PaginationMatchesPage<T>(items: seq<T>, page: int, size: nat)
    requires size >= 1 && 1 <= page <= TotalPages(|items|, size)
    ensures var info := Pagination(|items|, page, size).value;
      && 1 <= info.startItem <= info.endItem <= |items|
      && info.endItem - info.startItem + 1 == |PageSlice(items, page, size)|
      && PageSlice(items, page, size)[0] == items[info.startItem - 1]
  {
    PagesInRangeAreFilled(items, page, size);
    assert (page - 1) * size + size == page * size;
  }
}
