/** The page arithmetic the paged lists share: the defaults taken from the list envelope's
    `meta`, and the clamping Previous and Next setters. */
module Paging {
  import opened Types

  /** Every paged list asks the back end for ten rows at a time. */
  const Limit: int := 10

  /** `meta?.totalPage || 1`: a missing envelope and a zero page count both become one page. */
  function TotalPagesOf(meta: Option<PageMeta>): (n: int)
    ensures n != 0
    ensures meta.Some? && meta.value.totalPage >= 0 ==> n >= 1
    ensures meta.Some? && meta.value.totalPage > 0 ==> n == meta.value.totalPage
    ensures meta.None? ==> n == 1
  {
    if meta.None? || meta.value.totalPage == 0 then 1 else meta.value.totalPage
  }

  /** `meta?.total || 0`. */
  function TotalItemsOf(meta: Option<PageMeta>): (n: int)
    ensures meta.None? ==> n == 0
    ensures meta.Some? ==> n == meta.value.total
  {
    if meta.None? then 0 else meta.value.total
  }

  /** The pagination controls of the sender lists and the admin list: shown once the total
      no longer fits on one page. */
  predicate ShowPagination(meta: Option<PageMeta>): (shown: bool)
    ensures shown <==> meta.Some? && meta.value.total > Limit
    ensures meta.None? ==> !shown
  {
    TotalItemsOf(meta) > Limit
  }

  /** `setPage(prev => Math.max(prev - 1, 1))`. */
  function Prev(page: int): (r: int)
    ensures r >= 1
    ensures page >= 1 ==> page - 1 <= r <= page
  {
    if page - 1 >= 1 then page - 1 else 1
  }

  /** `setPage(prev => Math.min(prev + 1, totalPages))`. */
  function Next(page: int, totalPages: int): (r: int)
    ensures r <= totalPages
    ensures page <= totalPages ==> page <= r <= page + 1
  {
    if page + 1 <= totalPages then page + 1 else totalPages
  }

  /** `disabled={page === 1}` */
  predicate PrevDisabled(page: int) { page == 1 }

  /** `disabled={page === totalPages}` */
  predicate NextDisabled(page: int, totalPages: int) { page == totalPages }

  /** A page inside `[1, totalPages]` stays inside it whichever button is pressed. */
  lemma ClampsStayInRange(page: int, totalPages: int)
    requires 1 <= page <= totalPages
    ensures 1 <= Prev(page) <= totalPages
    ensures 1 <= Next(page, totalPages) <= totalPages
  {
  }

  /** Previous is disabled exactly where pressing it would not move, and Next likewise:
      a button that is enabled always changes the page by one. */
  lemma DisabledExactlyAtBounds(page: int, totalPages: int)
    requires 1 <= page <= totalPages
    ensures PrevDisabled(page) <==> Prev(page) == page
    ensures NextDisabled(page, totalPages) <==> Next(page, totalPages) == page
    ensures !PrevDisabled(page) ==> Prev(page) == page - 1
    ensures !NextDisabled(page, totalPages) ==> Next(page, totalPages) == page + 1
  {
  }

  /** Going forward and then back returns to the page, unless Next was disabled. */
  lemma NextThenPrev(page: int, totalPages: int)
    requires 1 <= page < totalPages
    ensures Prev(Next(page, totalPages)) == page
  {
  }
}
