/** The sender's "My Parcels" page: the parcels past the request stage, the pagination rule,
    the page clamps and the "Status Logs" navigation. */
module SenderParcels {
  import opened Types
  import opened Lists
  import Paging
  import PendingParcels
  import Routes

  predicate PastRequest(p: Parcel) { p.currentStatus != Requested }

  /** `allParcels.filter(parcel => parcel.currentStatus !== "REQUESTED")`. */
  function MyParcelsOf(all: seq<Parcel>): seq<Parcel> { Filter(all, PastRequest) }

  /** Over the same fetched page, this list and the pending list split the parcels between them:
      every parcel is on exactly one of the two pages. */
  lemma ComplementOfPending(all: seq<Parcel>)
    ensures |MyParcelsOf(all)| + |PendingParcels.PendingOf(all)| == |all|
    ensures multiset(MyParcelsOf(all)) + multiset(PendingParcels.PendingOf(all)) == multiset(all)
    ensures IsSubsequence(MyParcelsOf(all), all)
    ensures forall i :: 0 <= i < |MyParcelsOf(all)| ==> MyParcelsOf(all)[i].currentStatus != Requested
  {
    FilterComplement(all, PastRequest, PendingParcels.IsPending);
    FilterIsSubsequence(all, PastRequest);
    FilterMembers(all, PastRequest);
  }

  /** "Status Logs" of a row: `navigate(`/parcel/${id}`)`. */
  function StatusLogsTarget(p: Parcel): (path: string)
    ensures |path| == 8 + |p.id| && path[..8] == "/parcel/" && path[8..] == p.id
  {
    "/parcel/" + p.id
  }

  /** The target carries the parcel's id and no one else's, and the page it reaches opens
      without a logged-in user. */
  lemma StatusLogsTargetSpec(p: Parcel, q: Parcel)
    requires p.id != [] && '/' !in p.id
    ensures StatusLogsTarget(p) == StatusLogsTarget(q) <==> p.id == q.id
    ensures Routes.Visit(StatusLogsTarget(p), false, None, None) == Routes.Show
  {
    if StatusLogsTarget(p) == StatusLogsTarget(q) {
      assert p.id == StatusLogsTarget(p)[8..] == StatusLogsTarget(q)[8..] == q.id;
    }
    Routes.StatusLogPageIsOpen(p.id);
  }

  class SenderParcelsPage {
    var page: int

    constructor ()
      ensures page == 1
    {
      page := 1;
    }

    method HandlePrev()
      modifies this
      ensures page == Paging.Prev(old(page))
    {
      page := Paging.Prev(page);
    }

    method HandleNext(totalPages: int)
      modifies this
      ensures page == Paging.Next(old(page), totalPages)
    {
      page := Paging.Next(page, totalPages);
    }
  }
}
