/** The profile editor: the schema of its three fields, the prefill from the user record, the
    input handler that clears a field's error, and the submit handler that either records the
    schema's problems or sends the update. */
module EditProfile {
  import opened Types
  import opened Text
  import FormErrors

  /** The form's three values; every one is a string (the prefill turns absent values
      into ""). */
  datatype ProfileForm = ProfileForm(name: string, phone: string, address: string)

  datatype ProfileField = NameField | PhoneField | AddressField

  /** A character of the class `[\d\s\-()]`. */
  predicate IsPhoneChar(c: char) { IsDigit(c) || IsSpace(c) || c == '-' || c == '(' || c == ')' }

  predicate AllPhoneChars(s: string) { forall i :: 0 <= i < |s| ==> IsPhoneChar(s[i]) }

  /** `/^[+]?[\d\s\-()]{10,}$/`, read from the left: an optional leading '+', then at least ten
      characters of the class up to the very end. */
  predicate PhonePattern(s: string)
  {
    var body := if s != [] && s[0] == '+' then s[1..] else s;
    |body| >= 10 && AllPhoneChars(body)
  }

  /** The two ways the pattern can match: with no '+' or with one. ('+' is not in the class, so
      at most one of them applies.) */
  lemma PhonePatternIff(s: string)
    ensures PhonePattern(s) <==>
              (|s| >= 10 && AllPhoneChars(s)) || (|s| >= 11 && s[0] == '+' && AllPhoneChars(s[1..]))
  {
    if s != [] && s[0] == '+' {
      assert !IsPhoneChar(s[0]);
    }
  }

  /** The refinement `!val || pattern`: an empty phone is accepted. */
  predicate PhoneValid(phone: string) { phone == "" || PhonePattern(phone) }

  const NameRequired := "Name is required"
  const InvalidPhone := "Please enter a valid phone number"

  /** `profileSchema`'s problems in field order; the address has no rule. */
  function Issues(f: ProfileForm): (issues: seq<FormErrors.Issue<ProfileField>>)
    ensures forall k :: 0 <= k < |issues| ==> issues[k].field != AddressField
    ensures forall k :: 0 <= k < |issues| ==> issues[k].message != ""
  {
    (if |f.name| < 1 then [FormErrors.Issue(NameField, NameRequired)] else [])
    + (if !PhoneValid(f.phone) then [FormErrors.Issue(PhoneField, InvalidPhone)] else [])
  }

  /** The schema accepts exactly a non-empty name and a valid phone, whatever the address. */
  lemma IssuesSpec(f: ProfileForm, address: string)
    ensures Issues(f) == [] <==> f.name != "" && PhoneValid(f.phone)
    ensures Issues(f.(address := address)) == Issues(f)
  {
  }

  /** Ten digits make a phone number, nine do not, and two leading '+' never match. */
  lemma PhoneExamples()
    ensures PhoneValid("0123456789")
    ensures !PhoneValid("012345678")
    ensures !PhoneValid("++0123456789")
  {
    var ten := "0123456789";
    assert forall i :: 0 <= i < |ten| ==> IsDigit(ten[i]);
    var two := "++0123456789";
    assert two[1..][0] == '+';
  }

  /** The prefill: `user.name || ""` and likewise for phone and address. */
  function Prefill(u: User): (f: ProfileForm)
    ensures f.name == u.name
    ensures f.phone == (if u.phone.Some? then u.phone.value else "")
    ensures f.address == (if u.address.Some? then u.address.value else "")
  {
    ProfileForm(u.name,
                if u.phone.None? then "" else u.phone.value,
                if u.address.None? then "" else u.address.value)
  }

  /** The line under a field: shown only for a non-empty message. */
  function Shown(errors: map<ProfileField, string>, f: ProfileField): Option<string>
  {
    if f in errors && errors[f] != "" then Some(errors[f]) else None
  }

  /** `setErrors(prev => ({ ...prev, [name]: "" }))`: the field's message is blanked rather
      than removed, so it is no longer shown, and every other field shows what it showed. */
  function Cleared(errors: map<ProfileField, string>, f: ProfileField): (r: map<ProfileField, string>)
    ensures Shown(r, f).None? && f in r
    ensures forall g :: g != f ==> Shown(r, g) == Shown(errors, g)
  {
    errors[f := ""]
  }

  function Updated(form: ProfileForm, f: ProfileField, value: string): (r: ProfileForm)
    ensures f == NameField ==> r == form.(name := value)
    ensures f == PhoneField ==> r == form.(phone := value)
    ensures f == AddressField ==> r == form.(address := value)
  {
    match f
    case NameField => form.(name := value)
    case PhoneField => form.(phone := value)
    case AddressField => form.(address := value)
  }

  /** The update call: the user's id with the form's values. */
  datatype UpdateRequest = UpdateRequest(id: string, form: ProfileForm)

  /** After a failed submit every problem's field shows a message, the message of its last
      problem; a field without a problem shows nothing. */
  lemma RecordedErrorsSpec(f: ProfileForm, g: ProfileField)
    ensures (exists k :: 0 <= k < |Issues(f)| && Issues(f)[k].field == g) ==> Shown(FormErrors.Recorded(Issues(f)), g).Some?
    ensures (forall k :: 0 <= k < |Issues(f)| ==> Issues(f)[k].field != g) ==> Shown(FormErrors.Recorded(Issues(f)), g).None?
    ensures Shown(FormErrors.Recorded(Issues(f)), AddressField).None?
  {
    var issues := Issues(f);
    var errors := FormErrors.Recorded(issues);
    FormErrors.RecordedDomain(issues, g);
    FormErrors.RecordedDomain(issues, AddressField);
    if g in errors {
      FormErrors.RecordedLast(issues, g);
      var k :| 0 <= k < |issues| && issues[k].field == g && errors[g] == issues[k].message;
      assert errors[g] != "";
    }
  }

  /** The update mutation's state: not started (or reset), in flight, succeeded, failed. */
  datatype Mutation = Idle | Updating | Succeeded | Failed

  /** The alert above the form: a success or a failure message once the update has answered. */
  function Banner(m: Mutation): (alert: Option<string>)
    ensures alert.Some? <==> m == Succeeded || m == Failed
    ensures m == Succeeded ==> alert == Some("Your profile has been updated successfully.")
    ensures m == Failed ==> alert == Some("Failed to update profile. Please try again.")
  {
    match m
    case Succeeded => Some("Your profile has been updated successfully.")
    case Failed => Some("Failed to update profile. Please try again.")
    case _ => None
  }

  class EditProfilePage {
    var form: ProfileForm
    var errors: map<ProfileField, string>
    /** The update mutation's state (`isLoading`, `isSuccess`, `isError`). */
    var mutation: Mutation

    constructor ()
      ensures form == ProfileForm("", "", "") && errors == map[] && mutation == Idle
    {
      form := ProfileForm("", "", "");
      errors := map[];
      mutation := Idle;
    }

    /** The effect on `data`: a loaded user replaces the form's values. */
    method Load(user: Option<User>)
      modifies this
      ensures user.Some? ==> form == Prefill(user.value)
      ensures user.None? ==> form == old(form)
      ensures errors == old(errors) && mutation == old(mutation)
    {
      if user.Some? {
        form := Prefill(user.value);
      }
    }

    /** `handleInputChange`: the field takes the typed value and its error is cleared; a failed
        update is reset, so its alert goes away, while a success alert stays. */
    method HandleInputChange(f: ProfileField, value: string)
      modifies this
      ensures form == Updated(old(form), f, value)
      ensures errors == Cleared(old(errors), f)
      ensures mutation == if old(mutation) == Failed then Idle else old(mutation)
    {
      form := Updated(form, f, value);
      errors := Cleared(errors, f);
      if mutation == Failed {
        mutation := Idle;
      }
    }

    /** `handleSubmit`: a form the schema rejects gets one message per field and no call; a
        valid form without a user id makes no call either; otherwise the update is sent with
        the id and the values. */
    method HandleSubmit(userId: Option<string>) returns (sent: Option<UpdateRequest>)
      modifies this
      ensures sent.Some? <==> Issues(old(form)) == [] && userId.Some? && userId.value != ""
      ensures sent.Some? ==> sent.value == UpdateRequest(userId.value, old(form))
      ensures Issues(old(form)) != [] ==> errors == FormErrors.Recorded(Issues(old(form)))
      ensures Issues(old(form)) == [] ==> errors == old(errors)
      ensures form == old(form)
      ensures mutation == if sent.Some? then Updating else old(mutation)
    {
      var issues := Issues(form);
      if issues != [] {
        errors := FormErrors.Collect(issues);
        sent := None;
        return;
      }
      if userId.None? || userId.value == "" {
        sent := None;
        return;
      }
      sent := Some(UpdateRequest(userId.value, form));
      mutation := Updating;
    }

    /** The update's answer: `unwrap` rejects on failure and the `catch` only logs, so the
        answer shows only as the mutation's state. */
    method UpdateAnswered(succeeded: bool)
      modifies this
      requires mutation == Updating
      ensures mutation == if succeeded then Succeeded else Failed
      ensures Banner(mutation).Some?
      ensures form == old(form) && errors == old(errors)
    {
      mutation := if succeeded then Succeeded else Failed;
    }
  }
}
