/** The client-side session: the token in local storage, the back end's session, the
    query cache (by the tags its entries provide) and the current location; and the two
    logout sequences, as lists of effects run in order. */
module Session {

  /** The cache tags the endpoints declare. */
  datatype Tag = UserTag | ParcelTag

  /** The tags the `logout` mutation declares it invalidates. An invalidated entry is
      refetched, not dropped, so running the call leaves the set of cached tags as it was. */
  const LogoutInvalidates: set<Tag> := {UserTag}

  datatype Effect =
    | CallLogout(succeeded: bool)   // the `logout` request, awaited without `unwrap`: a failure does not stop the handler
    | RemoveToken                   // `localStorage.removeItem("token")`
    | ResetApiState                 // `baseApi.util.resetApiState()`: drops every cache entry
    | Navigate(path: string)

  datatype ClientState = ClientState(hasToken: bool, serverSession: bool, cached: set<Tag>, location: string)

  function Apply(s: ClientState, e: Effect): ClientState
  {
    match e
    case CallLogout(succeeded) => s.(serverSession := s.serverSession && !succeeded)
    case RemoveToken => s.(hasToken := false)
    case ResetApiState => s.(cached := {})
    case Navigate(p) => s.(location := p)
  }

  /** Runs effects in order. */
  function Run(s: ClientState, es: seq<Effect>): ClientState
    decreases |es|
  {
    if es == [] then s else Run(Apply(s, es[0]), es[1..])
  }

  /** `handleLogout` of the navigation bar, for a logout request that succeeds or fails: log
      out, reset the cache, go to the login page. */
  function NavbarLogout(succeeded: bool): seq<Effect> { [CallLogout(succeeded), ResetApiState, Navigate("/login")] }

  /** `handleLogout` of the profile page: drop the token, reset the cache, go to the login page. */
  function ProfileLogout(): seq<Effect> { [RemoveToken, ResetApiState, Navigate("/login")] }

  /** The navigation bar's logout empties the whole cache and lands on the login page whatever
      the request answers; the back-end session ends only when the request succeeds, and the
      stored token is left alone. */
  lemma NavbarLogoutOutcome(s: ClientState, succeeded: bool)
    ensures Run(s, NavbarLogout(succeeded)) == ClientState(s.hasToken, s.serverSession && !succeeded, {}, "/login")
  {
    var es := NavbarLogout(succeeded);
    var s1 := s.(serverSession := s.serverSession && !succeeded);
    var s2 := s1.(cached := {});
    assert Run(s, es) == Run(s1, es[1..]);
    assert Run(s1, es[1..]) == Run(s2, es[2..]) by { assert es[1..][0] == ResetApiState && es[1..][1..] == es[2..]; }
    assert Run(s2, es[2..]) == Run(s2.(location := "/login"), []) by { assert es[2..][0] == Navigate("/login") && es[2..][1..] == []; }
  }

  /** The logout call alone keeps every cache entry, the parcel entries included; only the
      reset removes them. Parcel entries are not among the tags the call invalidates, and the
      USER entries it does invalidate stay cached too. */
  lemma LogoutMutationAloneKeepsParcels(s: ClientState, succeeded: bool)
    requires ParcelTag in s.cached
    ensures ParcelTag !in LogoutInvalidates
    ensures forall t :: t in LogoutInvalidates ==> (t in Run(s, [CallLogout(succeeded)]).cached <==> t in s.cached)
    ensures Run(s, [CallLogout(succeeded)]).cached == s.cached
    ensures Run(s, NavbarLogout(succeeded)).cached == {}
  {
    assert [CallLogout(succeeded)][1..] == [];
    NavbarLogoutOutcome(s, succeeded);
  }

  /** In both sequences the cache is already empty when the navigation happens. */
  lemma CacheEmptyBeforeNavigate(s: ClientState, succeeded: bool)
    ensures NavbarLogout(succeeded)[2] == Navigate("/login") && Run(s, NavbarLogout(succeeded)[..2]).cached == {}
    ensures ProfileLogout()[2] == Navigate("/login") && Run(s, ProfileLogout()[..2]).cached == {}
  {
    var es := NavbarLogout(succeeded)[..2];
    var s1 := s.(serverSession := s.serverSession && !succeeded);
    assert Run(s, es) == Run(s1, es[1..]);
    assert Run(s1, es[1..]) == Run(s1.(cached := {}), []) by { assert es[1..][0] == ResetApiState && es[1..][1..] == []; }
    assert ProfileLogout()[..2][1..][1..] == [];
  }

  /** The profile page's logout removes the token, empties the cache and lands on the login
      page; it makes no logout call, so the back-end session is left as it was. */
  lemma ProfileLogoutOutcome(s: ClientState)
    ensures Run(s, ProfileLogout()) == ClientState(false, s.serverSession, {}, "/login")
  {
    assert ProfileLogout()[1..][1..][1..] == [];
  }
}
