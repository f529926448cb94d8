/** How the parcel pages show the polymorphic `sender` and `receiver` fields (a bare user id
    or a populated summary) and the status-log entries. */
module Display {
  import opened Types

  /** A user field as the pages see it: `undefined`, a bare id string, or a summary object. */
  type UserField = Option<UserRef>

  /** `!user`: `undefined` and the empty id string are both falsy; an object never is. */
  predicate Falsy(u: UserField) { u.None? || (u.value.IdRef? && u.value.id == "") }

  /** `getUser` of the tracking and status-log pages. */
  function UserName(u: UserField): (name: string)
    ensures Falsy(u) ==> name == "N/A"
    ensures !Falsy(u) && u.value.IdRef? ==> name == u.value.id
    ensures !Falsy(u) && u.value.Summary? ==> name == u.value.name
  {
    if Falsy(u) then "N/A"
    else match u.value
      case IdRef(id) => id
      case Summary(_, name, _) => name
  }

  /** `getUserEmail` (tracking page) and `getEmail` (status-log page). */
  function UserEmail(u: UserField): (email: string)
    ensures Falsy(u) ==> email == "N/A"
    ensures !Falsy(u) && u.value.IdRef? ==> email == "-"
    ensures !Falsy(u) && u.value.Summary? ==> email == u.value.email
  {
    if Falsy(u) then "N/A"
    else match u.value
      case IdRef(_) => "-"
      case Summary(_, _, email) => email
  }

  /** The two resolvers fall back together, and a bare id never shows an email: its email cell
      is always a placeholder while its name cell is the id itself. */
  lemma ResolversAgree(u: UserField)
    ensures Falsy(u) <==> (UserName(u) == "N/A" && UserEmail(u) == "N/A" && (u.Some? ==> u.value.IdRef?))
    ensures u.Some? && u.value.IdRef? ==> UserEmail(u) in {"N/A", "-"}
    ensures UserEmail(u) == "-" && (u.Some? ==> u.value.IdRef?) ==> u.Some? && UserName(u) == u.value.id != ""
  {
  }

  /** `parcel?.statusLogs ?? []`: no parcel and a parcel without logs both give no entries. */
  function LogsOf(parcel: Option<Parcel>): (logs: seq<StatusLogEntry>)
    ensures parcel.Some? && parcel.value.statusLogs.Some? ==> logs == parcel.value.statusLogs.value
    ensures parcel.None? || parcel.value.statusLogs.None? ==> logs == []
  {
    if parcel.None? || parcel.value.statusLogs.None? then [] else parcel.value.statusLogs.value
  }

  /** `(log.updatedBy as any)?.name ?? "N/A"`: only a populated user has a name; a bare id
      string has no `name` property, so it shows "N/A" like a missing one. */
  function ModifiedBy(e: StatusLogEntry): (name: string)
    ensures e.updatedBy.Some? && e.updatedBy.value.Summary? ==> name == e.updatedBy.value.name
    ensures e.updatedBy.None? || e.updatedBy.value.IdRef? ==> name == "N/A"
  {
    if e.updatedBy.Some? && e.updatedBy.value.Summary? then e.updatedBy.value.name else "N/A"
  }

  /** One row of a status timeline: the status, who changed it and the note text shown. */
  datatype TimelineRow = TimelineRow(status: ParcelStatus, modifiedBy: string, note: Option<string>)

  /** Rows built from log entries by a row function, one per entry, in the stored order. */
  function Timeline(logs: seq<StatusLogEntry>, note: StatusLogEntry -> Option<string>): (rows: seq<TimelineRow>)
    ensures |rows| == |logs|
    ensures forall i :: 0 <= i < |logs| ==>
              rows[i] == TimelineRow(logs[i].status, ModifiedBy(logs[i]), note(logs[i]))
  {
    seq(|logs|, i requires 0 <= i < |logs| => TimelineRow(logs[i].status, ModifiedBy(logs[i]), note(logs[i])))
  }
}
