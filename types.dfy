/** The records the client receives from the back end (timestamps left out). */
module Types {

  datatype Option<T> = None | Some(value: T)

  /** `TRole`. */
  datatype Role = SuperAdmin | Admin | Sender | Receiver

  /** The string literal of each role, as the back end sends it. */
  function RoleName(r: Role): string
  {
    match r
    case SuperAdmin => "SUPER_ADMIN"
    case Admin => "ADMIN"
    case Sender => "SENDER"
    case Receiver => "RECEIVER"
  }

  /** `TIsActive`. */
  datatype ActiveState = Active | Inactive | Blocked

  /** `ParcelStatus`, in the order the type lists them. */
  datatype ParcelStatus = Requested | Approved | Returned | Dispatched | InTransit | Delivered | Canceled

  /** `sender` and `receiver` of a parcel: a bare user id, or a populated `IUserSummary`. */
  datatype UserRef = IdRef(id: string) | Summary(id: string, name: string, email: string)

  /** One entry of `statusLogs`; `updatedBy` arrives as an id or a populated user. */
  datatype StatusLogEntry = StatusLogEntry(updatedBy: Option<UserRef>, status: ParcelStatus, note: Option<string>)

  /** `IParcel`. */
  datatype Parcel = Parcel(
    id: string,
    trackingId: string,
    sender: UserRef,
    receiver: UserRef,
    parcelType: string,
    weight: real,
    pickupAddress: string,
    deliveryAddress: string,
    fee: real,
    currentStatus: ParcelStatus,
    statusLogs: Option<seq<StatusLogEntry>>,
    isBlocked: Option<bool>)

  /** `IUser`. */
  datatype User = User(
    id: string,
    name: string,
    email: string,
    role: Role,
    phone: Option<string>,
    address: Option<string>,
    isDeleted: bool,
    isActive: ActiveState,
    isBlocked: bool,
    isVerified: bool)

  /** The list envelope `meta` of a paged response. */
  datatype PageMeta = PageMeta(page: int, limit: int, total: int, totalPage: int)
}
