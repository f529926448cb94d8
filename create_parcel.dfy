/** The sender's parcel-creation form: the schema of its six fields and the two-step submit that
    looks the receiver up by email and then creates the parcel for the id it found. */
module CreateParcel {
  import opened Types
  import FormErrors

  /** The form's values. A number input that is empty or not a number reads as `NaN`, written
      here as `None`. */
  datatype Values = Values(
    receiverEmail: string,
    parcelType: string,
    weight: Option<real>,
    pickupAddress: string,
    deliveryAddress: string,
    fee: Option<real>)

  /** `defaultValues`: empty strings and no numbers. */
  const Defaults := Values("", "", None, "", "", None)

  const InvalidEmail := "Please enter a valid email address"
  const TypeTooShort := "Parcel type must be at least 2 characters"
  const NotANumber := "Expected number, received nan"
  const WeightNotPositive := "Weight must be a positive number"
  const WeightTooSmall := "Weight must be at least 0.1kg"
  const PickupTooShort := "Pickup address must be at least 5 characters"
  const DeliveryTooShort := "Delivery address must be at least 5 characters"
  const FeeNegative := "Fee must be a non-negative number"
  const FeeBelowZero := "Fee cannot be negative"

  /** The problems of a number field: not a number stops its checks; otherwise every check
      runs. */
  function WeightIssues(w: Option<real>): seq<FormErrors.Issue<string>>
  {
    if w.None? then [FormErrors.Issue("weight", NotANumber)]
    else (if w.value <= 0.0 then [FormErrors.Issue("weight", WeightNotPositive)] else [])
         + (if w.value < 0.1 then [FormErrors.Issue("weight", WeightTooSmall)] else [])
  }

  function FeeIssues(f: Option<real>): seq<FormErrors.Issue<string>>
  {
    if f.None? then [FormErrors.Issue("fee", NotANumber)]
    else (if f.value < 0.0 then [FormErrors.Issue("fee", FeeNegative), FormErrors.Issue("fee", FeeBelowZero)] else [])
  }

  /** `createParcelSchema`'s problems in field order; `isEmail` is the library's address
      check. */
  function Issues(v: Values, isEmail: string -> bool): seq<FormErrors.Issue<string>>
  {
    (if !isEmail(v.receiverEmail) then [FormErrors.Issue("receiverEmail", InvalidEmail)] else [])
    + (if |v.parcelType| < 2 then [FormErrors.Issue("parcelType", TypeTooShort)] else [])
    + WeightIssues(v.weight)
    + (if |v.pickupAddress| < 5 then [FormErrors.Issue("pickupAddress", PickupTooShort)] else [])
    + (if |v.deliveryAddress| < 5 then [FormErrors.Issue("deliveryAddress", DeliveryTooShort)] else [])
    + FeeIssues(v.fee)
  }

  predicate Valid(v: Values, isEmail: string -> bool) { Issues(v, isEmail) == [] }

  /** The schema accepts exactly: an address the library accepts, a type of at least 2
      characters, a weight of at least 0.1 (so positive), addresses of at least 5 characters
      and a fee of at least 0. */
  lemma ValidIff(v: Values, isEmail: string -> bool)
    ensures Valid(v, isEmail) <==>
              isEmail(v.receiverEmail) && |v.parcelType| >= 2
              && v.weight.Some? && v.weight.value >= 0.1
              && |v.pickupAddress| >= 5 && |v.deliveryAddress| >= 5
              && v.fee.Some? && v.fee.value >= 0.0
  {
  }

  /** The fee's two rules are the same condition: a negative fee gets both messages, any other
      fee neither; a free parcel is accepted. */
  lemma FeeRulesCoincide(fee: real)
    ensures fee < 0.0 <==> FormErrors.Issue("fee", FeeNegative) in FeeIssues(Some(fee))
    ensures fee < 0.0 <==> FormErrors.Issue("fee", FeeBelowZero) in FeeIssues(Some(fee))
    ensures FeeIssues(Some(0.0)) == []
  {
  }

  /** A weight between 0 and 0.1 passes the positivity rule but not the minimum. */
  lemma SmallWeight()
    ensures WeightIssues(Some(0.05)) == [FormErrors.Issue("weight", WeightTooSmall)]
  {
  }

  /** The create call's body. */
  datatype CreatePayload = CreatePayload(
    receiver: string,
    parcelType: string,
    weight: real,
    pickupAddress: string,
    deliveryAddress: string,
    fee: real)

  /** `parcelData`: the found id as the receiver, the other fields copied unchanged. */
  function PayloadOf(v: Values, receiverId: string): (p: CreatePayload)
    requires v.weight.Some? && v.fee.Some?
    ensures p.receiver == receiverId && p.parcelType == v.parcelType
    ensures p.weight == v.weight.value && p.fee == v.fee.value
    ensures p.pickupAddress == v.pickupAddress && p.deliveryAddress == v.deliveryAddress
  {
    CreatePayload(receiverId, v.parcelType, v.weight.value, v.pickupAddress, v.deliveryAddress, v.fee.value)
  }

  /** The email is not sent: two forms that differ only in the email ask for the same parcel
      once the receiver's id is known. */
  lemma PayloadOmitsEmail(v: Values, email: string, receiverId: string)
    requires v.weight.Some? && v.fee.Some?
    ensures PayloadOf(v.(receiverEmail := email), receiverId) == PayloadOf(v, receiverId)
  {
  }

  /** How the lookup ends: rejected (with `err?.data?.message`, absent when there is none), or
      answered with the user's `_id` (absent when the user has none). */
  datatype Lookup = LookupFailed(message: Option<string>) | Found(id: Option<string>)

  /** How the create call ends. */
  datatype Creation = Created(trackingId: string) | CreateFailed(message: Option<string>)

  predicate Truthy(s: Option<string>) { s.Some? && s.value != "" }

  /** The `catch` toast: the backend's message when it has one, else the fallback. */
  function FailureToast(message: Option<string>): (t: string)
    ensures Truthy(message) ==> t == message.value
    ensures !Truthy(message) ==> t == "Failed to create parcel"
  {
    if Truthy(message) then message.value else "Failed to create parcel"
  }

  class CreateParcelForm {
    var values: Values

    constructor ()
      ensures values == Defaults
    {
      values := Defaults;
    }

    /** Typing into the form. */
    method Edit(v: Values)
      modifies this
      ensures values == v
    {
      values := v;
    }

    /** `handleSubmit(onSubmit)`: the schema gates the submit; the lookup comes first; a falsy
        id stops the flow with "Receiver not found!"; otherwise the parcel is created for that
        id, and only a successful creation resets the form. */
    method Submit(isEmail: string -> bool, lookup: Lookup, creation: Creation)
      returns (lookedUp: Option<string>, sent: Option<CreatePayload>, toast: Option<string>)
      modifies this
      ensures lookedUp.Some? <==> Valid(old(values), isEmail)
      ensures lookedUp.Some? ==> lookedUp.value == old(values).receiverEmail
      ensures sent.Some? <==> Valid(old(values), isEmail) && lookup.Found? && Truthy(lookup.id)
      ensures sent.Some? ==> old(values).weight.Some? && old(values).fee.Some?
                             && sent.value == PayloadOf(old(values), lookup.id.value)
      ensures values == (if sent.Some? && creation.Created? then Defaults else old(values))
      ensures !Valid(old(values), isEmail) ==> toast.None?
      ensures Valid(old(values), isEmail) && lookup.LookupFailed? ==> toast == Some(FailureToast(lookup.message))
      ensures Valid(old(values), isEmail) && lookup.Found? && !Truthy(lookup.id) ==> toast == Some("Receiver not found!")
      ensures sent.Some? && creation.Created? ==> toast == Some("Parcel created! Tracking ID: " + creation.trackingId)
      ensures sent.Some? && creation.CreateFailed? ==> toast == Some(FailureToast(creation.message))
    {
      if !Valid(values, isEmail) {
        lookedUp, sent, toast := None, None, None;
        return;
      }
      lookedUp := Some(values.receiverEmail);
      match lookup
      case LookupFailed(message) =>
        sent, toast := None, Some(FailureToast(message));
      case Found(id) =>
        if !Truthy(id) {
          sent, toast := None, Some("Receiver not found!");
          return;
        }
        ValidIff(values, isEmail);
        var payload := PayloadOf(values, id.value);
        sent := Some(payload);
        match creation
        case Created(trackingId) =>
          toast := Some("Parcel created! Tracking ID: " + trackingId);
          values := Defaults;
        case CreateFailed(message) =>
          toast := Some(FailureToast(message));
    }
  }
}
