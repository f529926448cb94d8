/** The sender's status-log page for one parcel: what it renders, in order of precedence, and
    the rows of its timeline. */
module StatusLog {
  import opened Types
  import opened Display

  /** `log.note ?? "No note"`: only a missing note is replaced; an empty one shows as empty. */
  function NoteText(e: StatusLogEntry): (text: string)
    ensures e.note.None? ==> text == "No note"
    ensures e.note.Some? ==> text == e.note.value
  {
    if e.note.None? then "No note" else e.note.value
  }

  function NoteOf(e: StatusLogEntry): Option<string> { Some(NoteText(e)) }

  /** The parcel's details: tracking id, the resolved names and emails, and the timeline
      (absent when there are no entries). */
  datatype Details = Details(
    trackingId: string,
    senderName: string, receiverName: string,
    senderEmail: string, receiverEmail: string,
    status: ParcelStatus,
    timeline: Option<seq<TimelineRow>>)

  datatype Screen = Loading | LoadError | NoParcel | Shown(details: Details)

  /** The page for the query state: still loading, failed, answered without a parcel
      (`data?.data || null`), or answered with one. */
  function Render(isLoading: bool, failed: bool, parcel: Option<Parcel>): (s: Screen)
    ensures s == Loading <==> isLoading
    ensures s == LoadError <==> !isLoading && failed
    ensures s == NoParcel <==> !isLoading && !failed && parcel.None?
    ensures s.Shown? ==> parcel.Some? && s.details.trackingId == parcel.value.trackingId
    ensures s.Shown? ==> s.details.status == parcel.value.currentStatus
  {
    if isLoading then Loading
    else if failed then LoadError
    else if parcel.None? then NoParcel
    else
      var p := parcel.value;
      var logs := LogsOf(parcel);
      Shown(Details(
        p.trackingId,
        UserName(Some(p.sender)), UserName(Some(p.receiver)),
        UserEmail(Some(p.sender)), UserEmail(Some(p.receiver)),
        p.currentStatus,
        if |logs| > 0 then Some(Timeline(logs, NoteOf)) else None))
  }

  /** A shown parcel's timeline is drawn exactly when it has entries, one row per entry in the
      stored order. Each row holds the entry's status, the modifier caption and the note text: the
      note itself when present (even an empty one) and "No note" otherwise; the populated
      updater's name, or "N/A" for a missing updater or a bare id. */
  lemma ShownTimeline(p: Parcel)
    ensures var s := Render(false, false, Some(p));
      s.Shown? && (s.details.timeline.Some? <==> |LogsOf(Some(p))| > 0)
      && (s.details.timeline.Some? ==>
            var logs := LogsOf(Some(p));
            var rows := s.details.timeline.value;
            |rows| == |logs|
            && forall i :: 0 <= i < |logs| ==>
                 rows[i] == TimelineRow(logs[i].status, ModifiedBy(logs[i]), Some(NoteText(logs[i])))
                 && (logs[i].note.None? ==> rows[i].note == Some("No note"))
                 && (logs[i].note.Some? ==> rows[i].note == logs[i].note)
                 && (logs[i].updatedBy.Some? && logs[i].updatedBy.value.Summary? ==>
                       rows[i].modifiedBy == logs[i].updatedBy.value.name)
                 && (logs[i].updatedBy.None? || logs[i].updatedBy.value.IdRef? ==> rows[i].modifiedBy == "N/A"))
  {
  }

  /** Both participants' cells follow the three-way rule of the resolvers: the id itself and
      "-" for a bare id, the name and email of a summary. */
  lemma ShownParticipants(p: Parcel)
    ensures var s := Render(false, false, Some(p));
      s.Shown?
      && (p.sender.IdRef? && p.sender.id != "" ==> s.details.senderName == p.sender.id && s.details.senderEmail == "-")
      && (p.sender.Summary? ==> s.details.senderName == p.sender.name && s.details.senderEmail == p.sender.email)
      && (p.receiver.IdRef? && p.receiver.id != "" ==> s.details.receiverName == p.receiver.id && s.details.receiverEmail == "-")
      && (p.receiver.Summary? ==> s.details.receiverName == p.receiver.name && s.details.receiverEmail == p.receiver.email)
  {
  }
}
