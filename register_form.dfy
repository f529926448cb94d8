/** The registration form: the rules of its schema, the payload it sends, and how a failed
    registration is reported back on the form. */
module RegisterForm {
  import opened Types
  import opened Text
  import FormErrors

  /** The form's five values, all strings (the role select starts at ""). */
  datatype Values = Values(name: string, email: string, password: string, confirmPassword: string, role: string)

  /** The special characters of the password rule: `[!@#$%^&*]`. */
  predicate IsSpecial(c: char)
  {
    c == '!' || c == '@' || c == '#' || c == '$' || c == '%' || c == '^' || c == '&' || c == '*'
  }

  /** `/^(?=.*[C])/`: the lookahead's `.*` stops at the first line terminator, so the wanted
      character must occur before it. */
  predicate OccursOnFirstLine(s: string, wanted: char -> bool)
  {
    exists i :: 0 <= i < |s| && wanted(s[i]) && forall j :: 0 <= j < i ==> !IsLineTerminator(s[j])
  }

  const NameTooShort := "Name is too short"
  const NameTooLong := "Name is too long"
  const InvalidEmail := "Invalid email address"
  const PasswordTooShort := "Password must be at least 8 characters long"
  const NoUppercase := "Password must contain at least 1 uppercase letter"
  const NoSpecial := "Password must contain at least 1 special character"
  const NoNumber := "Password must contain at least 1 number"
  const ConfirmTooShort := "Confirm Password is too short"
  const NoRole := "Please select a role"
  const InvalidRole := "Please select a valid role"
  const Mismatch := "Passwords do not match"

  /** The role literals a visitor may register with. */
  predicate SelfServiceRole(role: string) { role == "SENDER" || role == "RECEIVER" }

  /** `registerSchema`'s problems, in the order the checks run: each field's checks in turn
      (every check runs, so one field can have several), then the object-level match check,
      whose problem is attached to `confirmPassword`. `isEmail` is the library's address
      check. */
  function Issues(v: Values, isEmail: string -> bool): seq<FormErrors.Issue<string>>
  {
    (if |v.name| < 3 then [FormErrors.Issue("name", NameTooShort)] else [])
    + (if |v.name| > 50 then [FormErrors.Issue("name", NameTooLong)] else [])
    + (if !isEmail(v.email) then [FormErrors.Issue("email", InvalidEmail)] else [])
    + (if |v.password| < 8 then [FormErrors.Issue("password", PasswordTooShort)] else [])
    + (if !OccursOnFirstLine(v.password, IsUpper) then [FormErrors.Issue("password", NoUppercase)] else [])
    + (if !OccursOnFirstLine(v.password, IsSpecial) then [FormErrors.Issue("password", NoSpecial)] else [])
    + (if !OccursOnFirstLine(v.password, IsDigit) then [FormErrors.Issue("password", NoNumber)] else [])
    + (if |v.confirmPassword| < 8 then [FormErrors.Issue("confirmPassword", ConfirmTooShort)] else [])
    + (if v.role == "" then [FormErrors.Issue("role", NoRole)] else [])
    + (if !SelfServiceRole(v.role) then [FormErrors.Issue("role", InvalidRole)] else [])
    + (if v.password != v.confirmPassword then [FormErrors.Issue("confirmPassword", Mismatch)] else [])
  }

  /** The form is submitted only when the schema reports nothing. */
  predicate Valid(v: Values, isEmail: string -> bool) { Issues(v, isEmail) == [] }

  /** The schema accepts exactly: a name of 3 to 50 characters, an address the library
      accepts, a password of at least 8 characters with an upper-case letter, a special
      character and a digit before its first line break, a confirmation equal to it, and a
      self-service role. */
  lemma ValidIff(v: Values, isEmail: string -> bool)
    ensures Valid(v, isEmail) <==>
              3 <= |v.name| <= 50 && isEmail(v.email)
              && |v.password| >= 8 && OccursOnFirstLine(v.password, IsUpper)
              && OccursOnFirstLine(v.password, IsSpecial) && OccursOnFirstLine(v.password, IsDigit)
              && v.confirmPassword == v.password && SelfServiceRole(v.role)
  {
  }

  /** A confirmation that differs from the password is reported on `confirmPassword`, and the
      form is not submitted. */
  lemma MismatchOnConfirm(v: Values, isEmail: string -> bool)
    requires v.password != v.confirmPassword
    ensures FormErrors.Issue("confirmPassword", Mismatch) in Issues(v, isEmail)
    ensures !Valid(v, isEmail)
  {
    var found := Issues(v, isEmail);
    assert found[|found| - 1] == FormErrors.Issue("confirmPassword", Mismatch);
  }

  /** The empty role of a fresh form gets both role messages. */
  lemma EmptyRoleReportsBoth(v: Values, isEmail: string -> bool)
    requires v.role == ""
    ensures FormErrors.Issue("role", NoRole) in Issues(v, isEmail)
    ensures FormErrors.Issue("role", InvalidRole) in Issues(v, isEmail)
  {
    var tail := [FormErrors.Issue("role", NoRole), FormErrors.Issue("role", InvalidRole)]
                + (if v.password != v.confirmPassword then [FormErrors.Issue("confirmPassword", Mismatch)] else []);
    var found := Issues(v, isEmail);
    assert found[|found| - |tail|..] == tail;
    assert found[|found| - |tail|] == tail[0] && found[|found| - |tail| + 1] == tail[1];
  }

  /** A password whose only upper-case letter comes after a line break fails the upper-case
      rule. */
  lemma UppercaseAfterLineBreak()
    ensures !OccursOnFirstLine("abc\nD", IsUpper)
  {
    var s := "abc\nD";
    forall i | 0 <= i < |s| && IsUpper(s[i]) ensures exists j :: 0 <= j < i && IsLineTerminator(s[j]) {
      assert i == 4;
      assert IsLineTerminator(s[3]);
    }
  }

  /** What is sent: the values without the confirmation. */
  datatype Payload = Payload(name: string, email: string, password: string, role: string)

  function PayloadOf(v: Values): (p: Payload)
    ensures p.name == v.name && p.email == v.email && p.password == v.password && p.role == v.role
  {
    Payload(v.name, v.email, v.password, v.role)
  }

  /** A submitted registration never asks for an administrator role, and the password it
      sends is the one confirmed. */
  lemma SubmittedRoleIsSelfService(v: Values, isEmail: string -> bool)
    requires Valid(v, isEmail)
    ensures PayloadOf(v).role == "SENDER" || PayloadOf(v).role == "RECEIVER"
    ensures PayloadOf(v).role != RoleName(Admin) && PayloadOf(v).role != RoleName(SuperAdmin)
    ensures PayloadOf(v).password == v.confirmPassword
  {
    ValidIff(v, isEmail);
  }

  /** How the register call ends: an answer carrying `success`, or a rejection whose body has
      an `errors` array, or else a `message` (absent when there is none). */
  datatype Answer =
    | Answered(success: bool)
    | FieldErrors(errors: seq<FormErrors.Issue<string>>)
    | Rejected(message: Option<string>)

  /** What the handler does once the call has ended: the field errors it sets, the toast and
      the navigation. */
  datatype Outcome = Outcome(errors: map<string, string>, toast: Option<string>, navigate: Option<string>)

  /** The `catch` branches and the success branch of `onSubmit`. Each backend error is set on
      its own field, one `setError` after the other. */
  method OnAnswer(a: Answer) returns (o: Outcome)
    ensures o.navigate.Some? <==> a == Answered(true)
    ensures a == Answered(true) ==> o == Outcome(map[], Some("User created successfully"), Some("/login"))
    ensures a == Answered(false) ==> o == Outcome(map[], None, None)
    ensures a.FieldErrors? ==> o == Outcome(FormErrors.Recorded(a.errors), None, None)
    ensures a.Rejected? ==> o.errors == map[] && o.navigate.None?
    ensures a.Rejected? && a.message.Some? && a.message.value != "" ==> o.toast == a.message
    ensures a.Rejected? && (a.message.None? || a.message.value == "") ==> o.toast == Some("Registration failed. Please try again.")
  {
    match a
    case Answered(success) =>
      o := if success then Outcome(map[], Some("User created successfully"), Some("/login"))
           else Outcome(map[], None, None);
    case FieldErrors(errors) =>
      var m := FormErrors.Collect(errors);
      o := Outcome(m, None, None);
    case Rejected(message) =>
      o := Outcome(map[], Some(if message.Some? && message.value != "" then message.value
                               else "Registration failed. Please try again."), None);
  }
}
