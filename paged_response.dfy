/** One page of a list result, with the totals a client needs to ask for the
    others. */
module Paging {
  import opened Wrappers

  datatype PagedResponse<T> = PagedResponse(
    items: seq<T>,
    totalItems: int,
    totalPages: Option<int>,
    currentPage: int,
    pageSize: int)

  /** `(int)Math.Ceiling(count / (double)pageSize)`: the least integer at or above
      the quotient. A zero page size divides by zero in floating point, whose
      conversion back to an integer is left unspecified (`None`). */
  function TotalPages(count: int, pageSize: int): (pages: Option<int>)
    ensures pages.Some? <==> pageSize != 0
    ensures pageSize > 0 ==> (pages.value - 1) * pageSize < count <= pages.value * pageSize
    ensures pageSize < 0 ==> (pages.value - 1) * pageSize > count >= pages.value * pageSize
  {
    if pageSize > 0 then Some((count + pageSize - 1) / pageSize)
    else if pageSize < 0 then Some((-count - pageSize - 1) / -pageSize)
    else None
  }

  /** The constructor of `PagedResponse`: the page and the counts exactly as given. */
  function NewPagedResponse<T>(items: seq<T>, count: int, pageNumber: int, pageSize: int): (r: PagedResponse<T>)
    ensures r.items == items && r.totalItems == count
    ensures r.currentPage == pageNumber && r.pageSize == pageSize
    ensures r.totalPages == TotalPages(count, pageSize)
  {
    PagedResponse(items, count, TotalPages(count, pageSize), pageNumber, pageSize)
  }

  /** The total is exact: no items means no pages, a whole number of full pages
      means that many, and one item more needs one page more. */
  lemma TotalPagesExact(pages: nat, pageSize: int)
    requires pageSize > 0
    ensures TotalPages(pages * pageSize, pageSize) == Some(pages)
    ensures TotalPages(pages * pageSize + 1, pageSize) == Some(pages + 1)
  {
    assert pages * pageSize + pageSize - 1 == pages * pageSize + (pageSize - 1);
    DivUnique(pages, pageSize - 1, pageSize);
    assert pages * pageSize + 1 + pageSize - 1 == (pages + 1) * pageSize + 0;
    DivUnique(pages + 1, 0, pageSize);
  }

  lemma ZeroMultiple(k: int, d: int)
    requires d > 0 && -d < k * d < d
    ensures k == 0
  {
  }

  /** Euclidean division recovers the quotient it was built from. */
  lemma DivUnique(q: int, r: int, d: int)
    requires d > 0 && 0 <= r < d
    ensures (q * d + r) / d == q
  {
    var n := q * d + r;
    var q', r' := n / d, n % d;
    assert (q' - q) * d == r - r';
    ZeroMultiple(q' - q, d);
  }

  /** Every item of the full list lies on some page from 1 to the total: item `i`
      (from 0) is on page `i / pageSize + 1`. */
  lemma EveryItemHasAPage(count: int, pageSize: int, i: int)
    requires pageSize > 0 && 0 <= i < count
    ensures 1 <= i / pageSize + 1 <= TotalPages(count, pageSize).value
  {
    var p := i / pageSize;
    assert p * pageSize <= i;
  }
}
