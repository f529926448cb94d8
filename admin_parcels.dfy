/** The administrators' parcel list: the client-side search over the fetched page, the
    participant cells, the stat counts, the "Showing" line and page buttons, and the page
    state its handlers update (search, page, status dialog, block-toggle loading id). */
module AdminParcels {
  import opened Types
  import opened Text
  import opened Lists
  import Paging

  // ---------------------------------------------------------------- search

  /** The name a participant contributes to the search: a bare id string contributes "",
      a summary its name (`?.name || ""`). */
  function SearchName(u: UserRef): (name: string)
    ensures u.IdRef? ==> name == ""
    ensures u.Summary? ==> name == u.name
  {
    match u
    case IdRef(_) => ""
    case Summary(_, name, _) => name
  }

  /** The participant cell of a row: a bare id string shows itself, a summary its name,
      or "N/A" for an empty name. */
  function ParticipantCell(u: UserRef): (cell: string)
    ensures u.IdRef? ==> cell == u.id
    ensures u.Summary? ==> cell == if u.name == "" then "N/A" else u.name
  {
    match u
    case IdRef(id) => id
    case Summary(_, name, _) => if name == "" then "N/A" else name
  }

  /** The condition of `filteredParcels`: the lower-cased search occurs in the lower-cased
      tracking id, sender name or receiver name. */
  predicate MatchesSearch(search: string, p: Parcel)
  {
    var q := Lower(search);
    Includes(Lower(p.trackingId), q) || Includes(Lower(SearchName(p.sender)), q)
    || Includes(Lower(SearchName(p.receiver)), q)
  }

  function FilteredParcels(parcels: seq<Parcel>, search: string): seq<Parcel>
  {
    Filter(parcels, p => MatchesSearch(search, p))
  }

  /** The search keeps, in order, exactly the parcels of the page that match it. */
  lemma FilteredParcelsSpec(parcels: seq<Parcel>, search: string)
    ensures IsSubsequence(FilteredParcels(parcels, search), parcels)
    ensures forall i :: 0 <= i < |FilteredParcels(parcels, search)| ==>
              FilteredParcels(parcels, search)[i] in parcels && MatchesSearch(search, FilteredParcels(parcels, search)[i])
    ensures forall i :: 0 <= i < |parcels| && MatchesSearch(search, parcels[i]) ==> parcels[i] in FilteredParcels(parcels, search)
    ensures forall x :: multiset(FilteredParcels(parcels, search))[x] == if MatchesSearch(search, x) then multiset(parcels)[x] else 0
  {
    FilterMultiset(parcels, p => MatchesSearch(search, p));
    FilterIsSubsequence(parcels, p => MatchesSearch(search, p));
    FilterMembers(parcels, p => MatchesSearch(search, p));
  }

  /** An empty search keeps the whole page. */
  lemma EmptySearchKeepsAll(parcels: seq<Parcel>)
    ensures FilteredParcels(parcels, "") == parcels
  {
    forall i | 0 <= i < |parcels| ensures MatchesSearch("", parcels[i]) {
      assert Lower("") == [];
      IncludesEmpty(Lower(parcels[i].trackingId));
    }
    FilterAll(parcels, p => MatchesSearch("", p));
  }

  /** Only the empty string occurs in the empty string. */
  lemma IncludesInEmpty(sub: string)
    ensures Includes([], sub) <==> sub == []
  {
    if sub == [] {
      IncludesEmpty([]);
    }
  }

  /** A participant given as a bare id is never searched, although its cell shows the id:
      with both participants bare, a non-empty search matches only through the tracking id. */
  lemma BareIdsAreNotSearched(search: string, p: Parcel)
    requires p.sender.IdRef? && p.receiver.IdRef? && search != []
    ensures MatchesSearch(search, p) <==> Includes(Lower(p.trackingId), Lower(search))
    ensures ParticipantCell(p.sender) == p.sender.id && ParticipantCell(p.receiver) == p.receiver.id
  {
    assert Lower("") == [];
    assert |Lower(search)| > 0;
    IncludesInEmpty(Lower(search));
  }

  // ---------------------------------------------------------------- counts

  /** `p.isBlocked` is truthy; a missing flag counts as not blocked. */
  predicate IsBlocked(p: Parcel) { p.isBlocked == Some(true) }

  function ActiveCount(parcels: seq<Parcel>): nat { |Filter(parcels, p => !IsBlocked(p))| }

  function BlockedCount(parcels: seq<Parcel>): nat { |Filter(parcels, IsBlocked)| }

  /** The active and blocked cards partition the fetched page, and a parcel whose flag is
      missing is counted as active. */
  lemma CountsPartition(parcels: seq<Parcel>)
    ensures ActiveCount(parcels) + BlockedCount(parcels) == |parcels|
    ensures multiset(Filter(parcels, p => !IsBlocked(p))) + multiset(Filter(parcels, IsBlocked)) == multiset(parcels)
    ensures forall i :: 0 <= i < |parcels| && parcels[i].isBlocked.None? ==> parcels[i] in Filter(parcels, p => !IsBlocked(p))
  {
    FilterComplement(parcels, p => !IsBlocked(p), IsBlocked);
    FilterMembers(parcels, p => !IsBlocked(p));
  }

  // ---------------------------------------------------------------- the pagination strip

  /** `(page - 1) * limit + 1`. */
  function ShowingFrom(page: int): int { (page - 1) * Paging.Limit + 1 }

  /** `Math.min(page * limit, meta?.total || 0)`. */
  function ShowingTo(page: int, total: int): int
  {
    if page * Paging.Limit <= total then page * Paging.Limit else total
  }

  /** On a page that holds rows, the "Showing" line names a non-empty range of at most one
      page's worth of rows, ending at the total on the last page. */
  lemma ShowingRange(page: int, total: int)
    requires page >= 1 && (page - 1) * Paging.Limit < total
    ensures 1 <= ShowingFrom(page) <= ShowingTo(page, total) <= total
    ensures ShowingTo(page, total) - ShowingFrom(page) + 1 <= Paging.Limit
    ensures ShowingTo(page, total) == total <==> total <= page * Paging.Limit
  {
  }

  /** `Array.from({ length: Math.min(5, totalPages) }, (_, i) => i + 1)`. */
  function PageButtons(totalPages: int): (nums: seq<int>)
    ensures |nums| == if totalPages <= 0 then 0 else if totalPages < 5 then totalPages else 5
    ensures forall i :: 0 <= i < |nums| ==> nums[i] == i + 1
  {
    var n := if totalPages <= 0 then 0 else if totalPages < 5 then totalPages else 5;
    seq(n, i requires 0 <= i < n => i + 1)
  }

  /** `totalPages > 5 && <span>...</span>` */
  predicate ShowsEllipsis(totalPages: int) { totalPages > 5 }

  /** The buttons name existing pages from 1 on, all of them when there are at most five;
      the ellipsis appears exactly when some page has no button. */
  lemma PageButtonsSpec(totalPages: int)
    ensures forall i :: 0 <= i < |PageButtons(totalPages)| ==> 1 <= PageButtons(totalPages)[i] <= totalPages
    ensures ShowsEllipsis(totalPages) <==> exists k :: 1 <= k <= totalPages && k !in PageButtons(totalPages)
  {
    var b := PageButtons(totalPages);
    if ShowsEllipsis(totalPages) {
      assert 6 !in b;
    } else {
      forall k | 1 <= k <= totalPages ensures k in b {
        assert b[k - 1] == k;
      }
    }
  }

  // ---------------------------------------------------------------- page state

  /** The status update a submitted dialog sends. */
  datatype StatusUpdate = StatusUpdate(id: string, status: ParcelStatus, note: string)

  class AdminParcelsPage {
    var search: string
    var page: int
    var open: bool
    var note: string
    var selectedParcel: Option<Parcel>
    var selectedStatus: Option<ParcelStatus>
    var loadingParcel: Option<string>

    constructor ()
      ensures search == "" && page == 1 && !open && note == ""
      ensures selectedParcel.None? && selectedStatus.None? && loadingParcel.None?
    {
      search := "";
      page := 1;
      open := false;
      note := "";
      selectedParcel := None;
      selectedStatus := None;
      loadingParcel := None;
    }

    /** Editing the search box also goes back to the first page. */
    method SetSearch(v: string)
      modifies this
      ensures search == v && page == 1
      ensures open == old(open) && note == old(note) && selectedParcel == old(selectedParcel)
      ensures selectedStatus == old(selectedStatus) && loadingParcel == old(loadingParcel)
    {
      search := v;
      page := 1;
    }

    method HandlePrev()
      modifies this
      ensures page == Paging.Prev(old(page))
      ensures search == old(search) && open == old(open) && note == old(note) && selectedParcel == old(selectedParcel)
      ensures selectedStatus == old(selectedStatus) && loadingParcel == old(loadingParcel)
    {
      page := Paging.Prev(page);
    }

    method HandleNext(totalPages: int)
      modifies this
      ensures page == Paging.Next(old(page), totalPages)
      ensures search == old(search) && open == old(open) && note == old(note) && selectedParcel == old(selectedParcel)
      ensures selectedStatus == old(selectedStatus) && loadingParcel == old(loadingParcel)
    {
      page := Paging.Next(page, totalPages);
    }

    /** A page button. */
    method GoTo(totalPages: int, i: int)
      requires 0 <= i < |PageButtons(totalPages)|
      modifies this
      ensures page == i + 1 && 1 <= page <= totalPages
      ensures search == old(search) && open == old(open) && note == old(note) && selectedParcel == old(selectedParcel)
      ensures selectedStatus == old(selectedStatus) && loadingParcel == old(loadingParcel)
    {
      PageButtonsSpec(totalPages);
      page := PageButtons(totalPages)[i];
    }

    /** Choosing a status in a row's select opens the dialog for that parcel with an empty note. */
    method HandleOpenModal(p: Parcel, s: ParcelStatus)
      modifies this
      ensures selectedParcel == Some(p) && selectedStatus == Some(s) && note == "" && open
      ensures search == old(search) && page == old(page) && loadingParcel == old(loadingParcel)
    {
      selectedParcel := Some(p);
      selectedStatus := Some(s);
      note := "";
      open := true;
    }

    method SetNote(v: string)
      modifies this
      ensures note == v
      ensures search == old(search) && page == old(page) && open == old(open) && selectedParcel == old(selectedParcel)
      ensures selectedStatus == old(selectedStatus) && loadingParcel == old(loadingParcel)
    {
      note := v;
    }

    /** The dialog's Cancel button, and dismissing it. */
    method CloseModal()
      modifies this
      ensures !open
      ensures search == old(search) && page == old(page) && note == old(note) && selectedParcel == old(selectedParcel)
      ensures selectedStatus == old(selectedStatus) && loadingParcel == old(loadingParcel)
    {
      open := false;
    }

    /** `disabled={!note.trim()}`: the note is empty or white space only. */
    function SubmitDisabled(): (disabled: bool)
      reads this
      ensures disabled <==> forall i :: 0 <= i < |note| ==> IsSpace(note[i])
    {
      TrimEmptyIff(note);
      Trim(note) == []
    }

    /** `handleSubmitStatus`. `succeeded` is the back end's answer when the update is sent.
        Nothing is sent without a selected parcel and status; the dialog closes only after a
        successful update; nothing of the listed parcels is changed here. */
    method SubmitStatus(succeeded: bool) returns (sent: Option<StatusUpdate>)
      modifies this
      ensures selectedParcel.None? || selectedStatus.None? ==> sent.None? && open == old(open)
      ensures selectedParcel.Some? && selectedStatus.Some? ==>
                sent == Some(StatusUpdate(selectedParcel.value.id, selectedStatus.value, note))
                && open == (old(open) && !succeeded)
      ensures search == old(search) && page == old(page) && note == old(note) && selectedParcel == old(selectedParcel)
      ensures selectedStatus == old(selectedStatus) && loadingParcel == old(loadingParcel)
    {
      if selectedParcel.None? || selectedStatus.None? {
        sent := None;
        return;
      }
      sent := Some(StatusUpdate(selectedParcel.value.id, selectedStatus.value, note));
      if succeeded {
        open := false;
      }
    }

    /** A click on Update Status. The button is `disabled={!note.trim()}`, so `handleSubmitStatus`
        runs only for a note with something besides whitespace; a blank note sends nothing and
        changes nothing. */
    method ClickUpdateStatus(succeeded: bool) returns (sent: Option<StatusUpdate>)
      modifies this
      ensures SubmitDisabled() ==> sent.None? && open == old(open)
      ensures sent.Some? ==> Trim(sent.value.note) != [] && sent.value.note == note
      ensures !SubmitDisabled() && selectedParcel.Some? && selectedStatus.Some? ==>
                sent == Some(StatusUpdate(selectedParcel.value.id, selectedStatus.value, note))
                && open == (old(open) && !succeeded)
      ensures !SubmitDisabled() && (selectedParcel.None? || selectedStatus.None?) ==> sent.None? && open == old(open)
      ensures search == old(search) && page == old(page) && note == old(note) && selectedParcel == old(selectedParcel)
      ensures selectedStatus == old(selectedStatus) && loadingParcel == old(loadingParcel)
    {
      if SubmitDisabled() {
        sent := None;
        return;
      }
      sent := SubmitStatus(succeeded);
    }

    /** The first half of `handleToggleBlock`: the row's id is recorded as loading and the
        toggle request is sent for it. */
    method BeginToggleBlock(p: Parcel) returns (sent: string)
      modifies this
      ensures sent == p.id && loadingParcel == Some(p.id)
      ensures search == old(search) && page == old(page) && open == old(open) && note == old(note)
      ensures selectedParcel == old(selectedParcel) && selectedStatus == old(selectedStatus)
    {
      loadingParcel := Some(p.id);
      sent := p.id;
    }

    /** The `finally` of `handleToggleBlock`, on success and failure alike. */
    method EndToggleBlock()
      modifies this
      ensures loadingParcel.None?
      ensures search == old(search) && page == old(page) && open == old(open) && note == old(note)
      ensures selectedParcel == old(selectedParcel) && selectedStatus == old(selectedStatus)
    {
      loadingParcel := None;
    }

    /** `disabled={blockLoading && loadingParcel === parcel._id}`: only the row being toggled,
        and only while the mutation runs. */
    predicate ToggleDisabled(blockLoading: bool, p: Parcel)
      reads this
    {
      blockLoading && loadingParcel == Some(p.id)
    }
  }

  /** The toggle button's caption and the success toast's verb follow the parcel's flag. */
  function ToggleCaption(p: Parcel): (caption: string)
    ensures caption == "Unblock" <==> IsBlocked(p)
  {
    if IsBlocked(p) then "Unblock" else "Block"
  }

  /** While a toggle is in flight exactly the toggled row's button is disabled, and once it
      ends no row's is. */
  lemma ToggleDisablesOneRow(page: AdminParcelsPage, p: Parcel, q: Parcel)
    requires page.loadingParcel == Some(p.id)
    ensures page.ToggleDisabled(true, q) <==> q.id == p.id
    ensures !page.ToggleDisabled(false, q)
  {
  }
}
