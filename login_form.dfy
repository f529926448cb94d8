/** The login form's submit handler: the trimmed payload, the navigation on success, and the
    mapping of the three known backend messages to inline field errors. */
module LoginForm {
  import opened Types
  import opened Text

  datatype LoginPayload = LoginPayload(email: string, password: string)

  /** The payload is the form's two values with surrounding whitespace removed. */
  function Payload(email: string, password: string): (p: LoginPayload)
    ensures p.email == Trim(email) && p.password == Trim(password)
  {
    LoginPayload(Trim(email), Trim(password))
  }

  /** The payload never begins or ends with whitespace, and each value is a piece of what was
      typed. */
  lemma PayloadIsTrimmed(email: string, password: string)
    ensures var p := Payload(email, password);
      (p.email != [] ==> !IsSpace(p.email[0]) && !IsSpace(p.email[|p.email| - 1]))
      && (p.password != [] ==> !IsSpace(p.password[0]) && !IsSpace(p.password[|p.password| - 1]))
      && (exists k :: OccursAt(email, p.email, k)) && (exists k :: OccursAt(password, p.password, k))
  {
    TrimShape(email);
    TrimShape(password);
  }

  /** The two fields a message can be attached to. */
  datatype Field = EmailField | PasswordField

  /** How the login call ends: an answer carrying `success`, or a rejection carrying
      `err?.data?.message` (absent when there is none). */
  datatype Answer = Answered(success: bool) | Rejected(message: Option<string>)

  /** What the handler does once the call has ended. */
  datatype Outcome = Outcome(fieldError: Option<(Field, string)>, toast: Option<string>, navigate: Option<string>)

  /** `onSubmit` after `login(payload).unwrap()`. */
  function OnAnswer(a: Answer): (o: Outcome)
    // only a successful answer navigates, and it goes to the home page
    ensures o.navigate.Some? <==> a == Answered(true)
    ensures o.navigate.Some? ==> o.navigate.value == "/" && o.toast == Some("Logged in successfully")
    // an unsuccessful answer that is not a rejection does nothing at all
    ensures a == Answered(false) ==> o == Outcome(None, None, None)
    // the three known messages become inline errors, with no toast and no navigation
    ensures a == Rejected(Some("User does not exist")) ==> o == Outcome(Some((EmailField, "Email does not exist")), None, None)
    ensures a == Rejected(Some("User is blocked or deleted")) ==> o == Outcome(Some((EmailField, "User is blocked or deleted")), None, None)
    ensures a == Rejected(Some("Password does not matched")) ==> o == Outcome(Some((PasswordField, "Password is incorrect")), None, None)
  {
    match a
    case Answered(success) =>
      if success then Outcome(None, Some("Logged in successfully"), Some("/")) else Outcome(None, None, None)
    case Rejected(message) => RejectionOutcome(message)
  }

  /** The `if`/`else if` chain of the `catch` block: the message is compared for exact
      equality. */
  function RejectionOutcome(message: Option<string>): Outcome
  {
    if message == Some("User does not exist") then Outcome(Some((EmailField, "Email does not exist")), None, None)
    else if message == Some("User is blocked or deleted") then Outcome(Some((EmailField, "User is blocked or deleted")), None, None)
    else if message == Some("Password does not matched") then Outcome(Some((PasswordField, "Password is incorrect")), None, None)
    else Outcome(None, Some("Something went wrong. Please try again"), None)
  }

  /** The messages the form recognises. */
  predicate Known(message: Option<string>)
  {
    message == Some("User does not exist") || message == Some("User is blocked or deleted")
    || message == Some("Password does not matched")
  }

  /** A rejection sets a field error exactly when its message is one of the three known ones,
      and otherwise shows only the generic toast; a rejection never navigates. */
  lemma RejectionSpec(message: Option<string>)
    ensures OnAnswer(Rejected(message)).fieldError.Some? <==> Known(message)
    ensures !Known(message) ==> OnAnswer(Rejected(message)) == Outcome(None, Some("Something went wrong. Please try again"), None)
    ensures OnAnswer(Rejected(message)).navigate.None?
  {
  }

  /** Exact comparison: a message differing by case or surrounding spaces falls to the generic
      toast. */
  lemma NearMissIsGeneric()
    ensures OnAnswer(Rejected(Some("user does not exist"))).fieldError.None?
    ensures OnAnswer(Rejected(Some("User does not exist "))).fieldError.None?
    ensures OnAnswer(Rejected(None)).toast == Some("Something went wrong. Please try again")
  {
    assert "user does not exist"[0] != "User does not exist"[0];
    assert |"User does not exist "| != |"User does not exist"|;
  }
}
