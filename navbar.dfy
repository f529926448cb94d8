/** The navigation bar: which links a visitor sees, the profile link of the user menu, the
    strings it shows for the signed-in user, and its logout sequence. */
module Navbar {
  import opened Types
  import opened Text
  import opened Lists
  import Sidebar
  import Session

  /** The `role` of a link: `"PUBLIC"` or one role constant. */
  datatype LinkRole = Public | ForRole(role: Role)

  datatype NavLink = NavLink(href: string, title: string, role: LinkRole)

  /** `navigationLinks`, in order; the same list feeds the desktop and the mobile menu. */
  const NavigationLinks: seq<NavLink> := [
    NavLink("/", "Home", Public),
    NavLink("/about", "About", Public),
    NavLink("/contact", "Contact", Public),
    NavLink("/create-parcel", "Send Package", ForRole(Sender)),
    NavLink("/track", "Track Parcel", Public),
    NavLink("/admin", "Dashboard", ForRole(Admin)),
    NavLink("/admin", "Dashboard", ForRole(SuperAdmin)),
    NavLink("/sender", "Dashboard", ForRole(Sender)),
    NavLink("/receiver", "Dashboard", ForRole(Receiver))
  ]

  /** `showLink`: public links always; a role's links when the user has that role. */
  predicate ShowLink(link: NavLink, userRole: Option<Role>)
  {
    link.role == Public || (userRole.Some? && link.role == ForRole(userRole.value))
  }

  /** The links a menu renders, for the role of the current user (absent if none). */
  function VisibleLinks(userRole: Option<Role>): seq<NavLink>
  {
    Filter(NavigationLinks, (l: NavLink) => ShowLink(l, userRole))
  }

  /** The rendered links are exactly the table's links that `showLink` admits, in table order. */
  lemma VisibleLinksAreShown(userRole: Option<Role>)
    ensures IsSubsequence(VisibleLinks(userRole), NavigationLinks)
    ensures forall i :: 0 <= i < |VisibleLinks(userRole)| ==>
              VisibleLinks(userRole)[i] in NavigationLinks && ShowLink(VisibleLinks(userRole)[i], userRole)
    ensures forall i :: 0 <= i < |NavigationLinks| && ShowLink(NavigationLinks[i], userRole) ==>
              NavigationLinks[i] in VisibleLinks(userRole)
  {
    var p := (l: NavLink) => ShowLink(l, userRole);
    FilterIsSubsequence(NavigationLinks, p);
    FilterMembers(NavigationLinks, p);
  }

  /** The role column of `NavigationLinks`: public links at places 0, 1, 2 and 4, then one
      link per role. */
  predicate TableRoles(s: seq<NavLink>)
  {
    |s| == 9 && s[0].role == Public && s[1].role == Public && s[2].role == Public
    && s[3].role == ForRole(Sender) && s[4].role == Public && s[5].role == ForRole(Admin)
    && s[6].role == ForRole(SuperAdmin) && s[7].role == ForRole(Sender) && s[8].role == ForRole(Receiver)
  }

  /** The links of a table shaped like `NavigationLinks` that a role sees, by their place. */
  function Picked(s: seq<NavLink>, r: Option<Role>): seq<NavLink>
    requires |s| == 9
  {
    match r
    case None => [s[0], s[1], s[2], s[4]]
    case Some(Sender) => [s[0], s[1], s[2], s[3], s[4], s[7]]
    case Some(Admin) => [s[0], s[1], s[2], s[4], s[5]]
    case Some(SuperAdmin) => [s[0], s[1], s[2], s[4], s[6]]
    case Some(Receiver) => [s[0], s[1], s[2], s[4], s[8]]
  }

  /** The links each role sees, by their place in `NavigationLinks`. */
  function ExpectedLinks(r: Option<Role>): seq<NavLink>
  {
    Picked(NavigationLinks, r)
  }

  lemma NavigationRoles()
    ensures TableRoles(NavigationLinks)
  {
  }

  /** Only the role column decides what `showLink` keeps. */
  lemma FilterByRole(s: seq<NavLink>, r: Option<Role>, p: NavLink -> bool)
    requires TableRoles(s)
    requires forall l :: p(l) == ShowLink(l, r)
    ensures Filter(s, p) == Picked(s, r)
  {
    FilterNine(s, p);
  }

  /** Without a user the public links show: Home, About, Contact and Track Parcel. A role adds
      its own links to those, in table order. */
  lemma VisibleLinksOfRole(r: Option<Role>)
    ensures VisibleLinks(r) == ExpectedLinks(r)
  {
    var p := (l: NavLink) => ShowLink(l, r);
    NavigationRoles();
    FilterByRole(NavigationLinks, r, p);
  }

  /** A link is a dashboard link when its title is "Dashboard". */
  predicate IsDashboardLink(l: NavLink) { l.title == "Dashboard" }

  /** The title column of `NavigationLinks`: the last four links are the dashboard links. */
  predicate TableTitles(s: seq<NavLink>)
  {
    |s| == 9 && (forall k | 0 <= k < 5 :: !IsDashboardLink(s[k])) && (forall k | 5 <= k < 9 :: IsDashboardLink(s[k]))
  }

  /** Where a role's dashboard link sits in `NavigationLinks`. */
  function DashboardPlace(r: Role): nat
  {
    match r
    case Admin => 5
    case SuperAdmin => 6
    case Sender => 7
    case Receiver => 8
  }

  /** Of the links a role sees, only its own dashboard link is a dashboard link. */
  lemma DashboardOfPicked(s: seq<NavLink>, r: Role)
    requires TableTitles(s)
    ensures Filter(Picked(s, Some(r)), IsDashboardLink) == [s[DashboardPlace(r)]]
  {
    var ps := Picked(s, Some(r));
    var last := |ps| - 1;
    assert ps[last] == s[DashboardPlace(r)];
    assert forall k | 0 <= k < last :: !IsDashboardLink(ps[k]);
    FilterSkip(ps, last, IsDashboardLink);
    FilterFrom(ps, last, IsDashboardLink);
    assert ps[last + 1..] == [];
  }

  lemma NavigationTitles()
    ensures TableTitles(NavigationLinks)
  {
  }

  lemma DashboardHrefs(r: Role)
    ensures NavigationLinks[DashboardPlace(r)].href == Sidebar.DashboardBase(r)
  {
  }

  /** Every signed-in role sees exactly one "Dashboard" link, and it leads to its own dashboard. */
  lemma OneDashboardLink(r: Role)
    ensures var ds := Filter(VisibleLinks(Some(r)), IsDashboardLink);
            |ds| == 1 && ds[0].href == Sidebar.DashboardBase(r)
  {
    VisibleLinksOfRole(Some(r));
    NavigationTitles();
    DashboardOfPicked(NavigationLinks, r);
    DashboardHrefs(r);
  }

  /** `getProfilePath`: the profile link of each role's dashboard. */
  function GetProfilePath(r: Role): (path: string)
    // the path is the last link of the role's own sidebar
    ensures var gs := Sidebar.GetSidebarItems(Some(r));
            |gs| > 0 && |gs[|gs| - 1].items| == 1 && gs[|gs| - 1].items[0].url == path
  {
    Sidebar.SidebarHasProfile(r);
    match r
    case SuperAdmin => "/admin/profile"
    case Admin => "/admin/profile"
    case Sender => "/sender/profile"
    case Receiver => "/receiver/profile"
  }

  /** `email.split('@')[0]`: the name shown beside the avatar. */
  function DisplayName(email: string): (name: string)
    // the longest prefix of the address without an '@'
    ensures '@' !in name && name <= email
    ensures |name| < |email| ==> email[|name|] == '@'
    ensures '@' !in email ==> name == email
  {
    SplitFirst(email, '@');
    Split(email, '@')[0]
  }

  /** `email.charAt(0).toUpperCase()`: the avatar letter, empty for an empty address. */
  function AvatarLetter(email: string): (letter: string)
    ensures |letter| == if email == [] then 0 else 1
    ensures email != [] ==> letter[0] == UpperChar(email[0]) && !('a' <= letter[0] <= 'z')
  {
    if email == [] then [] else [UpperChar(email[0])]
  }

  /** `role.replace('_', ' ').toLowerCase()`: the role caption of the user menu. */
  function RoleCaption(r: Role): (caption: string)
    ensures |caption| == |RoleName(r)|
    // the literal lower-cased, with a space where its first underscore was
    ensures forall i :: 0 <= i < |caption| ==>
              caption[i] == if i == FirstIndex(RoleName(r), '_') then ' ' else LowerChar(RoleName(r)[i])
  {
    FirstIndexSpec(RoleName(r), '_');
    Lower(ReplaceFirst(RoleName(r), '_', ' '))
  }

  lemma SuperAdminUnderscore()
    ensures FirstIndex("SUPER_ADMIN", '_') == 5
  {
  }

  lemma SuperAdminSpaced()
    ensures ReplaceFirst("SUPER_ADMIN", '_', ' ') == "SUPER ADMIN"
  {
    SuperAdminUnderscore();
    var name := "SUPER_ADMIN";
    assert ReplaceFirst(name, '_', ' ') == name[..5] + [' '] + name[6..];
  }

  lemma LowerSuperAdmin()
    ensures Lower("SUPER ADMIN") == "super admin"
  {
  }

  /** The super administrator's caption reads as two words. */
  lemma SuperAdminCaption()
    ensures RoleCaption(SuperAdmin) == "super admin"
  {
    assert RoleName(SuperAdmin) == "SUPER_ADMIN";
    SuperAdminSpaced();
    LowerSuperAdmin();
  }

  /** The four captions of the user menu. */
  lemma RoleCaptionValues()
    ensures RoleCaption(Admin) == "admin"
    ensures RoleCaption(Sender) == "sender"
    ensures RoleCaption(Receiver) == "receiver"
    ensures RoleCaption(SuperAdmin) == "super admin"
  {
    assert '_' !in RoleName(Admin) && '_' !in RoleName(Sender) && '_' !in RoleName(Receiver);
    assert RoleCaption(Admin) == Lower("ADMIN") by { LowerAdmin(); }
    assert RoleCaption(Sender) == Lower("SENDER") by { LowerSender(); }
    assert RoleCaption(Receiver) == Lower("RECEIVER") by { LowerReceiver(); }
    LowerAdmin();
    LowerSender();
    LowerReceiver();
    SuperAdminCaption();
  }

  lemma LowerAdmin() ensures Lower("ADMIN") == "admin" {}
  lemma LowerSender() ensures Lower("SENDER") == "sender" {}
  lemma LowerReceiver() ensures Lower("RECEIVER") == "receiver" {}

  /** No two roles share a caption. */
  lemma RoleCaptionsDistinct(r: Role, q: Role)
    requires RoleCaption(r) == RoleCaption(q)
    ensures r == q
  {
    assert |RoleName(r)| == |RoleName(q)|;
  }

  /** `handleLogout`: the logout call, the cache reset, then the login page. The call is
      awaited without `unwrap`, so the handler carries on whatever the request answers. */
  function HandleLogout(succeeded: bool): (effects: seq<Session.Effect>)
    ensures |effects| == 3 && effects[0] == Session.CallLogout(succeeded) && effects[2] == Session.Navigate("/login")
    // the cache is emptied and the login page reached either way; the back-end session
    // ends only when the request succeeds
    ensures forall s :: Session.Run(s, effects) == Session.ClientState(s.hasToken, s.serverSession && !succeeded, {}, "/login")
  {
    var es := Session.NavbarLogout(succeeded);
    forall s ensures Session.Run(s, es) == Session.ClientState(s.hasToken, s.serverSession && !succeeded, {}, "/login") {
      Session.NavbarLogoutOutcome(s, succeeded);
    }
    es
  }
}
