/** The sender's pending-parcels page: the requested parcels of the fetched page, the Cancel
    cell of a row, the loading id `handleCancel` sets and clears, and the page clamps. */
module PendingParcels {
  import opened Types
  import opened Lists
  import Paging

  predicate IsPending(p: Parcel) { p.currentStatus == Requested }

  /** `allParcels.filter(parcel => parcel.currentStatus === 'REQUESTED')`. */
  function PendingOf(all: seq<Parcel>): seq<Parcel> { Filter(all, IsPending) }

  /** The listed parcels are exactly the requested ones of the page, in their original order. */
  lemma PendingOfSpec(all: seq<Parcel>)
    ensures IsSubsequence(PendingOf(all), all)
    ensures forall i :: 0 <= i < |PendingOf(all)| ==> PendingOf(all)[i].currentStatus == Requested
    ensures forall i :: 0 <= i < |all| && all[i].currentStatus == Requested ==> all[i] in PendingOf(all)
    ensures forall x :: multiset(PendingOf(all))[x] == if x.currentStatus == Requested then multiset(all)[x] else 0
  {
    FilterMultiset(all, IsPending);
    FilterIsSubsequence(all, IsPending);
    FilterMembers(all, IsPending);
  }

  datatype CancelCell = CanceledBadge | CancelButton(disabled: bool, caption: string)

  /** The Action cell: a Cancel button, disabled and captioned "Canceling..." on the row whose
      cancel is in flight; a badge for a canceled parcel. */
  function CancelCellOf(p: Parcel, loadingId: Option<string>): CancelCell
  {
    if p.currentStatus != Canceled then
      var busy := loadingId == Some(p.id);
      CancelButton(busy, if busy then "Canceling..." else "Cancel")
    else CanceledBadge
  }

  /** Every listed row offers Cancel: the badge branch cannot be reached after the filter. Only
      the row whose id is loading has its button disabled. */
  lemma ListedRowsOfferCancel(all: seq<Parcel>, loadingId: Option<string>)
    ensures forall i :: 0 <= i < |PendingOf(all)| ==>
              CancelCellOf(PendingOf(all)[i], loadingId).CancelButton?
              && (CancelCellOf(PendingOf(all)[i], loadingId).disabled <==> loadingId == Some(PendingOf(all)[i].id))
  {
    PendingOfSpec(all);
  }

  /** The toasts the end of a cancel raises. */
  datatype CancelToast = CanceledToast | FailedToast

  class PendingParcelsPage {
    var page: int
    var loadingId: Option<string>

    constructor ()
      ensures page == 1 && loadingId.None?
    {
      page := 1;
      loadingId := None;
    }

    /** The first half of `handleCancel`, once the dialog is answered (`accepted`): a declined
        dialog changes nothing and sends nothing; an accepted one marks the row as loading and
        sends the cancel for it. */
    method BeginCancel(id: string, accepted: bool) returns (sent: Option<string>)
      modifies this
      ensures !accepted ==> sent.None? && loadingId == old(loadingId)
      ensures accepted ==> sent == Some(id) && loadingId == Some(id)
      ensures page == old(page)
    {
      if !accepted {
        sent := None;
        return;
      }
      loadingId := Some(id);
      sent := Some(id);
    }

    /** The end of `handleCancel`: the toast follows the answer, and the loading id goes back to
        null on success and failure alike. */
    method EndCancel(succeeded: bool) returns (toast: CancelToast)
      modifies this
      ensures toast == if succeeded then CanceledToast else FailedToast
      ensures loadingId.None? && page == old(page)
    {
      toast := if succeeded then CanceledToast else FailedToast;
      loadingId := None;
    }

    method HandlePrev()
      modifies this
      ensures page == Paging.Prev(old(page)) && loadingId == old(loadingId)
    {
      page := Paging.Prev(page);
    }

    method HandleNext(totalPages: int)
      modifies this
      ensures page == Paging.Next(old(page), totalPages) && loadingId == old(loadingId)
    {
      page := Paging.Next(page, totalPages);
    }
  }
}
