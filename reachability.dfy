/** How the navigation surfaces and the router fit together: every link the navigation bar
    or the home page offers a visitor opens for that visitor instead of bouncing it to the
    login or unauthorized page. */
module Reachability {
  import opened Types
  import opened WithAuth
  import opened Routes
  import Navbar
  import Home
  import Sidebar

  /** The state the surfaces render in: the user query has loaded, and a user with a role has an email. */
  predicate Settled(email: Option<string>, role: Option<Role>)
  {
    role.Some? ==> HasEmail(email)
  }

  /** An outcome that shows a page, directly or through a dashboard's index redirect. */
  predicate Opens(o: Outcome) { o == Show || o.IndexRedirect? }

  /** A table link the navigation bar shows opens. */
  lemma TableLinkOpens(k: nat, email: Option<string>, role: Option<Role>)
    requires k < |Navbar.NavigationLinks| && Navbar.ShowLink(Navbar.NavigationLinks[k], role)
    requires Settled(email, role)
    ensures Opens(Visit(Navbar.NavigationLinks[k].href, false, email, role))
  {
    var link := Navbar.NavigationLinks[k];
    if k <= 2 || k == 4 {
      UnwrappedPagesOpen(k, false, email, role);
      assert RouteTable(k).pattern.path == link.href;
    } else if k == 3 {
      assert link.href == "/create-parcel" && role == Some(Sender);
      CreateParcelIsForSenders(email, role);
    } else {
      assert link.role.ForRole? && role == Some(link.role.role);
      var r := role.value;
      assert link.href == Sidebar.DashboardBase(r);
      DashboardIndexRedirect(r, email);
    }
  }

  /** Every link of the navigation bar opens for the visitor it is shown to. */
  lemma NavbarLinksOpen(email: Option<string>, role: Option<Role>, i: nat)
    requires Settled(email, role)
    requires i < |Navbar.VisibleLinks(role)|
    ensures Opens(Visit(Navbar.VisibleLinks(role)[i].href, false, email, role))
  {
    Navbar.VisibleLinksAreShown(role);
    var link := Navbar.VisibleLinks(role)[i];
    var k :| 0 <= k < |Navbar.NavigationLinks| && Navbar.NavigationLinks[k] == link;
    TableLinkOpens(k, email, role);
  }

  /** Both hero buttons of the home page open for the visitor they are shown to. */
  lemma HomeButtonsOpen(email: Option<string>, role: Option<Role>, i: nat)
    requires Settled(email, role)
    requires i < 2
    ensures Visit(Home.HomePage(false, role).buttons[i].target, false, email, role) == Show
  {
    var b := Home.HomePage(false, role).buttons[i];
    if i == 0 {
      assert b.target == "/track" == RouteTable(4).pattern.path;
      UnwrappedPagesOpen(4, false, email, role);
    } else if role.None? {
      assert b.target == "/about" == RouteTable(1).pattern.path;
      UnwrappedPagesOpen(1, false, email, role);
    } else if role == Some(Sender) {
      assert b.target == "/create-parcel";
      CreateParcelIsForSenders(email, role);
    } else {
      var r := role.value;
      IndexTargetIsSidebarLink(r);
      assert b.target == IndexTarget(r) && IndexLink(r) == 0;
      DashboardIsolation(r, r, email, 0);
    }
  }

  /** The profile entry of the user menu opens for its user. */
  lemma ProfileLinkOpens(email: Option<string>, r: Role)
    requires HasEmail(email)
    ensures Visit(Navbar.GetProfilePath(r), false, email, Some(r)) == Show
  {
    var gs := Sidebar.GetSidebarItems(Some(r));
    Sidebar.TableUrls();
    var i := |Sidebar.Urls(gs)| - 1;
    assert Sidebar.Urls(gs)[i] == Navbar.GetProfilePath(r);
    DashboardIsolation(r, r, email, i);
  }
}
