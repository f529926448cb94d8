/** The browser router: its route table, which entry a path resolves to, and what the
    visitor then gets, with the `withAuth` guard applied to the guarded entries. */
module Routes {
  import opened Types
  import opened WithAuth
  import Sidebar

  /** How an entry matches a path. The children of `/` are written as full paths; a dashboard
      layout holds its index path and the URLs of its sidebar items, which it mounts as children. */
  datatype Pattern =
    | Exact(path: string)
    | Layout(base: string, children: seq<string>)
    | WithId(prefix: string)     // `parcel/:id`: the prefix followed by one non-empty segment

  /** An entry: its pattern, the `withAuth` guard if the component is wrapped, and where its
      index child redirects. */
  datatype Route = Route(pattern: Pattern, guard: Option<RequiredRole>, indexRedirect: Option<string>)

  /** The number of entries in the route table. */
  const RouteCount: nat := 13

  /** The route table, entry by entry in the router's order. */
  function RouteTable(k: nat): Route
    requires k < RouteCount
  {
    match k
    case 0 => Route(Exact("/"), None, None)
    case 1 => Route(Exact("/about"), None, None)
    case 2 => Route(Exact("/contact"), None, None)
    case 3 => Route(Exact("/create-parcel"), Some(OneRole(Sender)), None)
    case 4 => Route(Exact("/track"), None, None)
    case 5 => Route(WithId("/parcel/"), None, None)
    case 6 => Route(Layout("/admin", Sidebar.Urls(Sidebar.AdminSidebar)), Some(OneOf([SuperAdmin, Admin])), Some("/admin/analytics"))
    case 7 => Route(Layout("/sender", Sidebar.Urls(Sidebar.SenderSidebar)), Some(OneRole(Sender)), Some("/sender/parcels"))
    case 8 => Route(Layout("/receiver", Sidebar.Urls(Sidebar.ReceiverSidebar)), Some(OneRole(Receiver)), Some("/receiver/parcels"))
    case 9 => Route(Exact("/login"), None, None)
    case 10 => Route(Exact("/register"), None, None)
    case 11 => Route(Exact("/update-profile"), None, None)
    case _ => Route(Exact("/unauthorized"), None, None)
  }

  predicate Matches(p: Pattern, path: string)
  {
    match p
    case Exact(q) => path == q
    case Layout(b, cs) => path == b || path in cs
    case WithId(pre) => pre <= path && |path| > |pre| && '/' !in path[|pre|..]
  }

  /** The first entry of `RouteTable`, from index `k` on, that matches `path`. */
  function MatchFrom(path: string, k: nat): (r: Option<Route>)
    decreases RouteCount - k
    ensures r.Some? ==> exists j :: k <= j < RouteCount && r.value == RouteTable(j) && Matches(r.value.pattern, path)
    ensures r.None? <==> forall j :: k <= j < RouteCount ==> !Matches(RouteTable(j).pattern, path)
  {
    if k >= RouteCount then None
    else if Matches(RouteTable(k).pattern, path) then Some(RouteTable(k))
    else MatchFrom(path, k + 1)
  }

  /** The entry a path resolves to: the first in the table that matches it. */
  function Resolve(path: string): Option<Route> { MatchFrom(path, 0) }

  /** No entry matches; the entry's component shows; the guard redirects to `/login` or
      `/unauthorized`; a layout's index child redirects to `to`. */
  datatype Outcome = NoRoute | Show | ToLogin | ToUnauthorized | IndexRedirect(to: string)

  /** What entering the entry `e` for `path` produces: the guard first, then the index
      redirect of a layout's own path. */
  function Enter(e: Route, path: string, isLoading: bool, email: Option<string>, role: Option<Role>): (o: Outcome)
    ensures o != NoRoute
    // an entry without `withAuth` never redirects to the login or unauthorized page
    ensures e.guard.None? ==> o != ToLogin && o != ToUnauthorized
    // a guarded entry sends a loaded visitor without an email to the login page
    ensures e.guard.Some? && !isLoading && !HasEmail(email) ==> o == ToLogin
    // while the query is loading, no guard redirects
    ensures isLoading ==> o != ToLogin && o != ToUnauthorized
  {
    var d := if e.guard.None? then RenderComponent else Decide(isLoading, email, role, e.guard.value);
    match d
    case RedirectLogin => ToLogin
    case RedirectUnauthorized => ToUnauthorized
    case RenderComponent =>
      if e.pattern.Layout? && path == e.pattern.base && e.indexRedirect.Some?
      then IndexRedirect(e.indexRedirect.value)
      else Show
  }

  /** What a visit to `path` produces, given the current-user query (`isLoading` and the
      user's email and role). */
  function Visit(path: string, isLoading: bool, email: Option<string>, role: Option<Role>): (o: Outcome)
    ensures o == NoRoute <==> Resolve(path).None?
  {
    match Resolve(path)
    case None => NoRoute
    case Some(e) => Enter(e, path, isLoading, email, role)
  }

  /** `MatchFrom` picks the entry at `k` when none between `from` and it matches and it does. */
  lemma {:induction false} MatchAt(path: string, from: nat, k: nat)
    requires from <= k < RouteCount && Matches(RouteTable(k).pattern, path)
    requires forall j :: from <= j < k ==> !Matches(RouteTable(j).pattern, path)
    ensures MatchFrom(path, from) == Some(RouteTable(k))
    decreases k - from
  {
    if from < k {
      MatchAt(path, from + 1, k);
    }
  }

  /** The index of the dashboard layout serving a role in `RouteTable`. */
  function DashboardEntry(r: Role): nat
  {
    match r
    case SuperAdmin => 6
    case Admin => 6
    case Sender => 7
    case Receiver => 8
  }

  /** A path at or under one dashboard prefix matches none of the entries before the layouts. */
  lemma NotPublicEntry(path: string, r: Role)
    requires var base := Sidebar.DashboardBase(r); path == base || base + "/" <= path
    ensures forall j :: 0 <= j < 6 ==> !Matches(RouteTable(j).pattern, path)
  {
    var base := Sidebar.DashboardBase(r);
    assert path[1] == base[1] && path[2] == base[2];
  }

  /** The layout entry of a role's dashboard mounts that role's sidebar links. */
  lemma DashboardPattern(r: Role)
    ensures RouteTable(DashboardEntry(r)).pattern
            == Layout(Sidebar.DashboardBase(r), Sidebar.Urls(Sidebar.GetSidebarItems(Some(r))))
  {
  }

  /** A path at or under one dashboard prefix matches no other dashboard's layout. */
  lemma NotOtherLayout(path: string, r: Role, other: Role)
    requires var base := Sidebar.DashboardBase(r); path == base || base + "/" <= path
    requires Sidebar.DashboardBase(other) != Sidebar.DashboardBase(r)
    ensures !Matches(RouteTable(DashboardEntry(other)).pattern, path)
  {
    DashboardPattern(other);
    Sidebar.UrlsUnderBase(other);
    var base := Sidebar.DashboardBase(r);
    var ob := Sidebar.DashboardBase(other);
    assert path[1] == base[1] && ob[1] != base[1];
    forall u | u in Sidebar.Urls(Sidebar.GetSidebarItems(Some(other))) ensures u != path {
      assert u[1] == ob[1];
    }
  }

  /** A dashboard's own path and the links of its sidebar resolve to its layout. */
  lemma ResolveDashboard(path: string, r: Role)
    requires path == Sidebar.DashboardBase(r) || path in Sidebar.Urls(Sidebar.GetSidebarItems(Some(r)))
    ensures Resolve(path) == Some(RouteTable(DashboardEntry(r)))
  {
    var k := DashboardEntry(r);
    Sidebar.UrlsUnderBase(r);
    DashboardPattern(r);
    assert Matches(RouteTable(k).pattern, path);
    forall j | 0 <= j < k ensures !Matches(RouteTable(j).pattern, path) {
      if j < 6 {
        NotPublicEntry(path, r);
      } else if j == 6 {
        NotOtherLayout(path, r, Admin);
      } else {
        NotOtherLayout(path, r, Sender);
      }
    }
    MatchAt(path, 0, k);
  }

  /** Every sidebar link of a role resolves to that role's dashboard layout. */
  lemma SidebarUrlResolves(r: Role, i: nat)
    requires i < |Sidebar.Urls(Sidebar.GetSidebarItems(Some(r)))|
    ensures Resolve(Sidebar.Urls(Sidebar.GetSidebarItems(Some(r)))[i]) == Some(RouteTable(DashboardEntry(r)))
  {
    ResolveDashboard(Sidebar.Urls(Sidebar.GetSidebarItems(Some(r)))[i], r);
  }

  /** The guard of a role's dashboard layout. */
  function DashboardGuard(r: Role): RequiredRole
  {
    if r == SuperAdmin || r == Admin then OneOf([SuperAdmin, Admin]) else OneRole(r)
  }

  lemma DashboardEntryShape(r: Role)
    ensures RouteTable(DashboardEntry(r)).guard == Some(DashboardGuard(r))
    ensures RouteTable(DashboardEntry(r)).indexRedirect == Some(IndexTarget(r))
  {
  }

  /** A logged-in role passes a dashboard's guard exactly when that dashboard is its own. */
  lemma DashboardGuardAdmits(r: Role, other: Role, email: Option<string>)
    requires HasEmail(email)
    ensures var d := Decide(false, email, Some(other), DashboardGuard(r));
            (d == RenderComponent <==> Sidebar.DashboardBase(other) == Sidebar.DashboardBase(r))
            && (d != RenderComponent ==> d == RedirectUnauthorized)
  {
  }

  /** A link of a role's sidebar opens for every role sharing that dashboard and sends every
      other logged-in role to the unauthorized page. */
  lemma DashboardIsolation(r: Role, other: Role, email: Option<string>, i: nat)
    requires HasEmail(email)
    requires i < |Sidebar.Urls(Sidebar.GetSidebarItems(Some(r)))|
    ensures var url := Sidebar.Urls(Sidebar.GetSidebarItems(Some(r)))[i];
            (Visit(url, false, email, Some(other)) == Show <==> Sidebar.DashboardBase(other) == Sidebar.DashboardBase(r))
            && (Visit(url, false, email, Some(other)) != Show ==> Visit(url, false, email, Some(other)) == ToUnauthorized)
  {
    var url := Sidebar.Urls(Sidebar.GetSidebarItems(Some(r)))[i];
    SidebarUrlResolves(r, i);
    DashboardEntryShape(r);
    DashboardPattern(r);
    DashboardGuardAdmits(r, other, email);
    Sidebar.UrlsUnderBase(r);
    assert url in Sidebar.Urls(Sidebar.GetSidebarItems(Some(r)));
    assert url != Sidebar.DashboardBase(r);
  }

  /** Where each dashboard's index child redirects, and which sidebar link that is. */
  function IndexTarget(r: Role): string
  {
    match r
    case SuperAdmin => "/admin/analytics"
    case Admin => "/admin/analytics"
    case Sender => "/sender/parcels"
    case Receiver => "/receiver/parcels"
  }

  function IndexLink(r: Role): nat { if r == Sender then 1 else 0 }

  lemma IndexTargetIsSidebarLink(r: Role)
    ensures IndexLink(r) < |Sidebar.Urls(Sidebar.GetSidebarItems(Some(r)))|
    ensures Sidebar.Urls(Sidebar.GetSidebarItems(Some(r)))[IndexLink(r)] == IndexTarget(r)
  {
    Sidebar.TableUrls();
  }

  /** Each dashboard's bare path redirects its own roles to one of their sidebar links, which
      then opens. */
  lemma DashboardIndexRedirect(r: Role, email: Option<string>)
    requires HasEmail(email)
    ensures Visit(Sidebar.DashboardBase(r), false, email, Some(r)) == IndexRedirect(IndexTarget(r))
    ensures IndexTarget(r) in Sidebar.Urls(Sidebar.GetSidebarItems(Some(r)))
    ensures Visit(IndexTarget(r), false, email, Some(r)) == Show
  {
    ResolveDashboard(Sidebar.DashboardBase(r), r);
    DashboardEntryShape(r);
    DashboardPattern(r);
    DashboardGuardAdmits(r, r, email);
    IndexTargetIsSidebarLink(r);
    DashboardIsolation(r, r, email, IndexLink(r));
  }

  /** The status-log page `parcel/:id` is not wrapped in `withAuth`: it opens with no user. */
  lemma StatusLogPageIsOpen(id: string)
    requires id != [] && '/' !in id
    ensures Visit("/parcel/" + id, false, None, None) == Show
  {
    var path := "/parcel/" + id;
    assert path[..8] == "/parcel/" && path[8..] == id;
    assert |path| > 8 && path[1] == 'p';
    forall k | 0 <= k < 5 ensures !Matches(RouteTable(k).pattern, path) {
      assert k == 0 || RouteTable(k).pattern.path[1] != 'p';
    }
    MatchAt(path, 0, 5);
  }

  /** A path a dashboard layout matches is its base or lies under it. */
  lemma UnderLayout(j: nat, path: string)
    requires 6 <= j <= 8
    ensures var base := RouteTable(j).pattern.base;
            Matches(RouteTable(j).pattern, path) ==> path == base || base + "/" <= path
  {
    var r := if j == 6 then Admin else if j == 7 then Sender else Receiver;
    assert DashboardEntry(r) == j;
    DashboardPattern(r);
    Sidebar.UrlsUnderBase(r);
  }

  /** Each page entry (not a layout or a parameterised path) is the one its own path resolves to. */
  lemma ResolveExact(k: nat)
    requires k < RouteCount && RouteTable(k).pattern.Exact?
    ensures Resolve(RouteTable(k).pattern.path) == Some(RouteTable(k))
  {
    var path := RouteTable(k).pattern.path;
    forall j | 0 <= j < k ensures !Matches(RouteTable(j).pattern, path) {
      if j == 0 {
        assert |path| > 1;
      } else if RouteTable(j).pattern.Exact? {
        assert path != RouteTable(j).pattern.path by {
          assert |path| != |RouteTable(j).pattern.path| || path[1] != RouteTable(j).pattern.path[1]
                 || path[2] != RouteTable(j).pattern.path[2];
        }
      } else if RouteTable(j).pattern.Layout? {
        UnderLayout(j, path);
        var base := RouteTable(j).pattern.base;
        assert |path| >= 4 && |base| >= 4 && (path[1] != base[1] || path[3] != base[3]);
      } else {
        assert path[1] != 'p';
      }
    }
    MatchAt(path, 0, k);
  }

  /** The pages not wrapped in `withAuth` open whatever the user query says, with no user at all
      or while it loads. */
  lemma UnwrappedPagesOpen(k: nat, isLoading: bool, email: Option<string>, role: Option<Role>)
    requires k < RouteCount && RouteTable(k).pattern.Exact? && RouteTable(k).guard.None?
    ensures Visit(RouteTable(k).pattern.path, isLoading, email, role) == Show
  {
    ResolveExact(k);
  }

  /** `/create-parcel` opens for a logged-in sender only: any other role is sent to the
      unauthorized page and a visitor with no email to the login page. */
  lemma CreateParcelIsForSenders(email: Option<string>, role: Option<Role>)
    ensures HasEmail(email) ==>
              (Visit("/create-parcel", false, email, role) == Show <==> role == Some(Sender))
              && (role != Some(Sender) ==> Visit("/create-parcel", false, email, role) == ToUnauthorized)
    ensures !HasEmail(email) ==> Visit("/create-parcel", false, email, role) == ToLogin
  {
    ResolveExact(3);
  }
}
