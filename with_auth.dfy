/** `withAuth(Component, requiredRole?)` and the decision its `AuthWrapper` takes on every render. */
module WithAuth {
  import opened Types

  /** The optional `requiredRole` argument: absent, a single role, or an array of roles. */
  datatype RequiredRole = AnyUser | OneRole(role: Role) | OneOf(roles: seq<Role>)

  datatype Decision = RenderComponent | RedirectLogin | RedirectUnauthorized

  /** `data?.data?.email` is truthy: present and not the empty string. */
  predicate HasEmail(email: Option<string>) { email.Some? && email.value != "" }

  /** `AuthWrapper`, given the state of the current-user query: `isLoading`, and the email and
      role of the user it returned (absent when there is none). */
  function Decide(isLoading: bool, email: Option<string>, role: Option<Role>, required: RequiredRole): (d: Decision)
    // once loaded, no email means the login page, whatever the required role
    ensures !isLoading && !HasEmail(email) ==> d == RedirectLogin
    // while loading nothing redirects: control falls through to the wrapped component
    ensures isLoading ==> d == RenderComponent
    // no required role: every loaded user with an email is let in
    ensures required == AnyUser && !isLoading && HasEmail(email) ==> d == RenderComponent
    // an array: let in exactly when the role is one of its elements
    ensures required.OneOf? && !isLoading && HasEmail(email) ==>
              (d == RenderComponent <==> role.Some? && role.value in required.roles)
    // a single role: let in exactly when the role is that role
    ensures required.OneRole? && !isLoading && HasEmail(email) ==>
              (d == RenderComponent <==> role == Some(required.role))
    // the unauthorized page is only ever chosen for a loaded user with an email
    ensures d == RedirectUnauthorized ==> !isLoading && HasEmail(email) && required != AnyUser
  {
    if !isLoading && !HasEmail(email) then RedirectLogin
    else if required != AnyUser && !isLoading then
      match required
      case OneOf(roles) => if role.None? || role.value !in roles then RedirectUnauthorized else RenderComponent
      case OneRole(r) => if role != Some(r) then RedirectUnauthorized else RenderComponent
    else RenderComponent
  }

  /** An empty array is truthy: it turns every loaded, logged-in user away. */
  lemma EmptyArrayRejectsEveryone(email: Option<string>, role: Option<Role>)
    requires HasEmail(email)
    ensures Decide(false, email, role, OneOf([])) == RedirectUnauthorized
  {
  }

  /** A single role and the one-element array holding it decide alike. */
  lemma SingleRoleIsSingletonArray(isLoading: bool, email: Option<string>, role: Option<Role>, r: Role)
    ensures Decide(isLoading, email, role, OneRole(r)) == Decide(isLoading, email, role, OneOf([r]))
  {
  }
}
