/** The receiver's incoming-parcels page: which fetched parcels are listed, the Confirm and
    Return cells of a row and what pressing them asks of the back end, the page-number window
    `getPaginationRange` builds, and the page the number buttons select. */
module IncomingParcels {
  import opened Types
  import opened Lists
  import Paging

  // ---------------------------------------------------------------- the listed parcels

  /** Requested and canceled parcels are not the receiver's business yet, or any more. */
  predicate Listed(p: Parcel) { p.currentStatus != Requested && p.currentStatus != Canceled }

  /** `allParcels.filter(...)` over the fetched page. */
  function VisibleParcels(all: seq<Parcel>): seq<Parcel> { Filter(all, Listed) }

  /** The listed parcels are the fetched ones minus the requested and canceled ones,
      all of the others, in their original order. */
  lemma VisibleParcelsSpec(all: seq<Parcel>)
    ensures IsSubsequence(VisibleParcels(all), all)
    ensures forall i :: 0 <= i < |VisibleParcels(all)| ==>
              VisibleParcels(all)[i].currentStatus != Requested && VisibleParcels(all)[i].currentStatus != Canceled
    ensures forall i :: 0 <= i < |all| && all[i].currentStatus != Requested && all[i].currentStatus != Canceled ==>
              all[i] in VisibleParcels(all)
    ensures forall x :: multiset(VisibleParcels(all))[x] ==
              if x.currentStatus != Requested && x.currentStatus != Canceled then multiset(all)[x] else 0
  {
    FilterMultiset(all, Listed);
    FilterIsSubsequence(all, Listed);
    FilterMembers(all, Listed);
  }

  // ---------------------------------------------------------------- the action cells

  /** `restrictedStatuses`. */
  const RestrictedStatuses: seq<ParcelStatus> := [Requested, Approved, Returned, Dispatched, Canceled]

  /** `isDisabled = restrictedStatuses.includes(parcel.currentStatus)`. */
  predicate ConfirmDisabled(s: ParcelStatus) { s in RestrictedStatuses }

  datatype ConfirmCell = ConfirmedBadge | ConfirmButton(disabled: bool)

  datatype ReturnCell = ReturnedBadge | ReturnButton

  function ConfirmCellOf(s: ParcelStatus): ConfirmCell
  {
    if s == Delivered then ConfirmedBadge else ConfirmButton(ConfirmDisabled(s))
  }

  function ReturnCellOf(s: ParcelStatus): ReturnCell
  {
    if s == Returned then ReturnedBadge else ReturnButton
  }

  /** Confirm is restricted exactly for the statuses other than in transit and delivered. */
  lemma ConfirmDisabledIff(s: ParcelStatus)
    ensures ConfirmDisabled(s) <==> s != InTransit && s != Delivered
  {
    if s == InTransit || s == Delivered {
      assert RestrictedStatuses == [Requested, Approved, Returned, Dispatched, Canceled];
    }
  }

  /** On a listed row the Confirm cell is a badge for a delivered parcel, an enabled button for
      one in transit, and a disabled button otherwise. */
  lemma ConfirmCellOfListed(p: Parcel)
    requires Listed(p)
    ensures ConfirmCellOf(p.currentStatus) == ConfirmedBadge <==> p.currentStatus == Delivered
    ensures ConfirmCellOf(p.currentStatus) == ConfirmButton(false) <==> p.currentStatus == InTransit
    ensures ConfirmCellOf(p.currentStatus) == ConfirmButton(true) <==>
              p.currentStatus in {Approved, Returned, Dispatched}
  {
    ConfirmDisabledIff(p.currentStatus);
  }

  /** Return is offered on every listed row except a returned one, a delivered one included. */
  lemma ReturnCellOfListed(p: Parcel)
    requires Listed(p)
    ensures ReturnCellOf(p.currentStatus) == ReturnButton <==>
              p.currentStatus in {Approved, Dispatched, InTransit, Delivered}
  {
  }

  /** What a confirmed dialog sends to the back end. */
  datatype Request = ConfirmDelivery(id: string) | ReturnParcel(id: string)

  /** Pressing a row's Confirm button, then answering the dialog (`accepted`):
      `!isDisabled && handleConfirm(id)`, which asks only when the dialog is confirmed. */
  function ConfirmClick(p: Parcel, accepted: bool): (r: Option<Request>)
    requires ConfirmCellOf(p.currentStatus).ConfirmButton?
    ensures r.Some? <==> accepted && !ConfirmDisabled(p.currentStatus)
    ensures r.Some? ==> r.value == ConfirmDelivery(p.id) && p.currentStatus == InTransit
  {
    ConfirmDisabledIff(p.currentStatus);
    if ConfirmDisabled(p.currentStatus) then None
    else if accepted then Some(ConfirmDelivery(p.id)) else None
  }

  /** Pressing a row's Return button, then answering the dialog. */
  function ReturnClick(p: Parcel, accepted: bool): (r: Option<Request>)
    requires ReturnCellOf(p.currentStatus) == ReturnButton
    ensures r.Some? <==> accepted
    ensures r.Some? ==> r.value == ReturnParcel(p.id) && p.currentStatus != Returned
  {
    if accepted then Some(ReturnParcel(p.id)) else None
  }

  // ---------------------------------------------------------------- the page-number window

  /** An entry of the window: a page button, or the `'...'` placeholder. */
  datatype PageItem = PageNum(n: int) | Ellipsis

  const MaxVisiblePages: int := 5

  /** The buttons `lo, lo + 1, ..., hi`; none when `hi < lo`. */
  function Nums(lo: int, hi: int): (r: seq<PageItem>)
    ensures |r| == if lo <= hi then hi - lo + 1 else 0
    ensures forall i :: 0 <= i < |r| ==> r[i] == PageNum(lo + i)
  {
    seq(if lo <= hi then hi - lo + 1 else 0, i => PageNum(lo + i))
  }

  /** The window for the `page`-th of `totalPages` pages: every page when there are at most five;
      otherwise the first four, the last four, or the neighbours of the current page, with the
      first and the last page and a placeholder for each gap. */
  function PaginationRange(page: int, totalPages: int): seq<PageItem>
  {
    if totalPages <= MaxVisiblePages then Nums(1, totalPages)
    else if page <= 3 then Nums(1, 4) + [Ellipsis, PageNum(totalPages)]
    else if page >= totalPages - 2 then [PageNum(1), Ellipsis] + Nums(totalPages - 3, totalPages)
    else [PageNum(1), Ellipsis] + Nums(page - 1, page + 1) + [Ellipsis, PageNum(totalPages)]
  }

  /** `getPaginationRange`, which builds the window with `push` inside `for` loops. */
  method GetPaginationRange(page: int, totalPages: int) returns (range: seq<PageItem>)
    ensures range == PaginationRange(page, totalPages)
  {
    range := [];
    if totalPages <= MaxVisiblePages {
      var i := 1;
      while i <= totalPages
        invariant 1 <= i && (i <= totalPages + 1 || i == 1)
        invariant range == Nums(1, i - 1)
      {
        range := range + [PageNum(i)];
        i := i + 1;
      }
    } else if page <= 3 {
      var i := 1;
      while i <= 4
        invariant 1 <= i <= 5
        invariant range == Nums(1, i - 1)
      {
        range := range + [PageNum(i)];
        i := i + 1;
      }
      range := range + [Ellipsis, PageNum(totalPages)];
    } else if page >= totalPages - 2 {
      range := range + [PageNum(1), Ellipsis];
      var i := totalPages - 3;
      while i <= totalPages
        invariant totalPages - 3 <= i <= totalPages + 1
        invariant range == [PageNum(1), Ellipsis] + Nums(totalPages - 3, i - 1)
      {
        range := range + [PageNum(i)];
        i := i + 1;
      }
    } else {
      range := range + [PageNum(1), Ellipsis];
      var i := page - 1;
      while i <= page + 1
        invariant page - 1 <= i <= page + 2
        invariant range == [PageNum(1), Ellipsis] + Nums(page - 1, i - 1)
      {
        range := range + [PageNum(i)];
        i := i + 1;
      }
      range := range + [Ellipsis, PageNum(totalPages)];
    }
  }

  /** The numbers of a window strictly increase from left to right. */
  predicate NumbersIncrease(r: seq<PageItem>)
  {
    forall i, j :: 0 <= i < j < |r| && r[i].PageNum? && r[j].PageNum? ==> r[i].n < r[j].n
  }

  /** Every placeholder sits between two numbers and stands for at least one hidden page. */
  predicate GapsAreReal(r: seq<PageItem>)
  {
    forall i :: 0 <= i < |r| && r[i].Ellipsis? ==>
      0 < i < |r| - 1 && r[i - 1].PageNum? && r[i + 1].PageNum? && r[i + 1].n > r[i - 1].n + 1
  }

  /** With at most five pages the window is exactly `1, 2, ..., totalPages`. */
  lemma SmallWindowIsEveryPage(page: int, totalPages: int)
    requires totalPages <= MaxVisiblePages
    ensures |PaginationRange(page, totalPages)| == if totalPages >= 1 then totalPages else 0
    ensures forall i :: 0 <= i < |PaginationRange(page, totalPages)| ==> PaginationRange(page, totalPages)[i] == PageNum(i + 1)
  {
  }

  /** The shape every window over more than five pages has. */
  predicate WellShaped(r: seq<PageItem>, totalPages: int)
  {
    (|r| == 6 || |r| == 7) && r[0] == PageNum(1) && r[|r| - 1] == PageNum(totalPages)
    && NumbersIncrease(r) && GapsAreReal(r)
    && forall i :: 0 <= i < |r| - 1 ==> !(r[i].Ellipsis? && r[i + 1].Ellipsis?)
  }

  lemma HeadWindowShape(n: int)
    requires n > MaxVisiblePages
    ensures WellShaped([PageNum(1), PageNum(2), PageNum(3), PageNum(4), Ellipsis, PageNum(n)], n)
  {
  }

  lemma TailWindowShape(n: int)
    requires n > MaxVisiblePages
    ensures WellShaped([PageNum(1), Ellipsis, PageNum(n - 3), PageNum(n - 2), PageNum(n - 1), PageNum(n)], n)
  {
  }

  lemma MiddleWindowShape(page: int, n: int)
    requires 3 < page < n - 2
    ensures WellShaped([PageNum(1), Ellipsis, PageNum(page - 1), PageNum(page), PageNum(page + 1), Ellipsis, PageNum(n)], n)
  {
  }

  /** With more than five pages the window runs from page 1 to the last page, has six or seven
      entries, its numbers strictly increase, no two placeholders are adjacent and each
      placeholder hides at least one page. */
  lemma LargeWindowShape(page: int, totalPages: int)
    requires totalPages > MaxVisiblePages
    ensures WellShaped(PaginationRange(page, totalPages), totalPages)
  {
    var r := PaginationRange(page, totalPages);
    var n := totalPages;
    if page <= 3 {
      assert r == [PageNum(1), PageNum(2), PageNum(3), PageNum(4), Ellipsis, PageNum(n)];
      HeadWindowShape(n);
    } else if page >= n - 2 {
      assert r == [PageNum(1), Ellipsis, PageNum(n - 3), PageNum(n - 2), PageNum(n - 1), PageNum(n)];
      TailWindowShape(n);
    } else {
      assert r == [PageNum(1), Ellipsis, PageNum(page - 1), PageNum(page), PageNum(page + 1), Ellipsis, PageNum(n)];
      MiddleWindowShape(page, n);
    }
  }

  /** Every number in the window is a page that exists, and the current page is always in it. */
  lemma WindowNumbersInRange(page: int, totalPages: int)
    requires 1 <= page <= totalPages
    ensures forall i :: 0 <= i < |PaginationRange(page, totalPages)| && PaginationRange(page, totalPages)[i].PageNum? ==>
              1 <= PaginationRange(page, totalPages)[i].n <= totalPages
    ensures PageNum(page) in PaginationRange(page, totalPages)
  {
    var r := PaginationRange(page, totalPages);
    var n := totalPages;
    if n <= MaxVisiblePages {
      assert r[page - 1] == PageNum(page);
    } else if page <= 3 {
      assert r == [PageNum(1), PageNum(2), PageNum(3), PageNum(4), Ellipsis, PageNum(n)];
    } else if page >= n - 2 {
      assert r == [PageNum(1), Ellipsis, PageNum(n - 3), PageNum(n - 2), PageNum(n - 1), PageNum(n)];
    } else {
      assert r == [PageNum(1), Ellipsis, PageNum(page - 1), PageNum(page), PageNum(page + 1), Ellipsis, PageNum(n)];
    }
  }

  /** The window's buttons and the rows are shown when the total exceeds one page and at
      least one parcel is listed. */
  predicate ShowPagination(meta: Option<PageMeta>, visible: seq<Parcel>): (shown: bool)
    ensures shown <==> meta.Some? && meta.value.total > Paging.Limit && visible != []
    ensures visible == [] ==> !shown
  {
    Paging.ShowPagination(meta) && |visible| > 0
  }

  /** The page state of the receiver's list, and the window's number buttons. */
  class IncomingParcelsPage {
    var page: int

    constructor ()
      ensures page == 1
    {
      page := 1;
    }

    /** The number buttons the page shows for `totalPages` pages, and which one is highlighted. */
    method Window(totalPages: int) returns (range: seq<PageItem>, highlighted: seq<bool>)
      ensures range == PaginationRange(page, totalPages)
      ensures |highlighted| == |range|
      ensures forall i :: 0 <= i < |range| ==> (highlighted[i] <==> range[i] == PageNum(page))
    {
      var current := page;
      range := GetPaginationRange(current, totalPages);
      highlighted := seq(|range|, i requires 0 <= i < |range| => range[i] == PageNum(current));
    }

    /** `setPage(num)` from one of the window's number buttons. */
    method Select(totalPages: int, i: int)
      requires 0 <= i < |PaginationRange(page, totalPages)| && PaginationRange(page, totalPages)[i].PageNum?
      modifies this
      ensures page == old(PaginationRange(page, totalPages))[i].n
      ensures 1 <= old(page) <= totalPages ==> 1 <= page <= totalPages
    {
      WindowNumberAt(page, totalPages, i);
      page := PaginationRange(page, totalPages)[i].n;
    }
  }

  /** `WindowNumbersInRange` at one index (a helper for `Select`). */
  lemma WindowNumberAt(page: int, totalPages: int, i: int)
    requires 0 <= i < |PaginationRange(page, totalPages)| && PaginationRange(page, totalPages)[i].PageNum?
    ensures 1 <= page <= totalPages ==> 1 <= PaginationRange(page, totalPages)[i].n <= totalPages
  {
    if 1 <= page <= totalPages {
      WindowNumbersInRange(page, totalPages);
    }
  }
}
