/** The public tracking page: the tracking-id box, `handleTrack`, the parcel it shows, and the
    timeline built from the parcel's logs. */
module TrackParcel {
  import opened Types
  import opened Text
  import opened Display

  /** The id `handleTrack` looks up, if any: nothing when the box trims to empty; otherwise
      the box's text exactly as typed, untrimmed. */
  function TrackRequest(trackingId: string): (sent: Option<string>)
    ensures sent.None? <==> forall i :: 0 <= i < |trackingId| ==> IsSpace(trackingId[i])
    ensures sent.Some? ==> sent.value == trackingId
  {
    TrimEmptyIff(trackingId);
    if Trim(trackingId) == [] then None else Some(trackingId)
  }

  /** The lookup sends the untrimmed id: surrounding blanks reach the back end. */
  lemma LookupIsUntrimmed(id: string)
    requires exists i :: 0 <= i < |id| && !IsSpace(id[i])
    ensures TrackRequest([' '] + id + [' ']) == Some([' '] + id + [' '])
    ensures TrackRequest([' '] + id + [' ']) != Some(id)
  {
    var i :| 0 <= i < |id| && !IsSpace(id[i]);
    assert !IsSpace(([' '] + id + [' '])[i + 1]);
  }

  /** The toasts `handleTrack` can raise. */
  datatype Toast = EnterTrackingId | NotFound

  /** A timeline entry shows its note only when the note is a non-empty string (`log.note && ...`). */
  function TrackNote(e: StatusLogEntry): (shown: Option<string>)
    ensures shown.Some? <==> e.note.Some? && e.note.value != ""
    ensures shown.Some? ==> shown == e.note
  {
    if e.note.Some? && e.note.value != "" then e.note else None
  }

  /** The timeline of a shown parcel: one row per stored entry, in order; drawn only when
      there is at least one entry. */
  function TrackTimeline(parcel: Option<Parcel>): (rows: Option<seq<TimelineRow>>)
    ensures rows.Some? <==> |LogsOf(parcel)| > 0
    ensures rows.Some? ==> |rows.value| == |LogsOf(parcel)|
    ensures rows.Some? ==>
              var logs := LogsOf(parcel);
              forall i :: 0 <= i < |logs| ==>
                rows.value[i].status == logs[i].status
                && rows.value[i].modifiedBy == ModifiedBy(logs[i])
                && (rows.value[i].note.Some? <==> logs[i].note.Some? && logs[i].note.value != "")
                && (rows.value[i].note.Some? ==> rows.value[i].note == logs[i].note)
  {
    var logs := LogsOf(parcel);
    if |logs| > 0 then Some(Timeline(logs, TrackNote)) else None
  }

  class TrackParcelPage {
    var trackingId: string
    var parcel: Option<Parcel>

    constructor ()
      ensures trackingId == "" && parcel == None
    {
      trackingId := "";
      parcel := None;
    }

    /** Typing in the box. */
    method SetTrackingId(v: string)
      modifies this
      ensures trackingId == v && parcel == old(parcel)
    {
      trackingId := v;
    }

    /** `handleTrack`. `response` is what the lookup answers when it is made: the parcel, or
        nothing when the lookup fails. Returns the id looked up (if any) and the toast raised. */
    method HandleTrack(response: Option<Parcel>) returns (sent: Option<string>, toast: Option<Toast>)
      modifies this
      ensures sent == TrackRequest(old(trackingId))
      ensures trackingId == old(trackingId)
      // an id that trims to empty: an error, no lookup, and the shown parcel is kept
      ensures sent.None? ==> toast == Some(EnterTrackingId) && parcel == old(parcel)
      // a successful lookup shows its parcel
      ensures sent.Some? && response.Some? ==> toast.None? && parcel == response
      // a failed lookup clears any earlier result
      ensures sent.Some? && response.None? ==> toast == Some(NotFound) && parcel.None?
    {
      sent := TrackRequest(trackingId);
      if sent.None? {
        toast := Some(EnterTrackingId);
      } else if response.Some? {
        parcel := response;
        toast := None;
      } else {
        parcel := None;
        toast := Some(NotFound);
      }
    }
  }
}
