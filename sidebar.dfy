/** `getSidebarItems` and the three sidebar tables of the dashboard layout. */
module Sidebar {
  import opened Types

  /** An `ISidebarItem` entry: a link, its page left out. */
  datatype Item = Item(title: string, url: string)

  /** An `ISidebarItem`: a titled group of links. */
  datatype Group = Group(title: string, items: seq<Item>)

  const AdminSidebar: seq<Group> := [
    Group("Dashboard", [Item("Analytics", "/admin/analytics")]),
    Group("Management", [Item("Users", "/admin/users"), Item("Parcels", "/admin/parcels")]),
    Group("Account", [Item("Profile", "/admin/profile")])
  ]

  const SenderSidebar: seq<Group> := [
    Group("Parcels", [Item("Pendings", "/sender/pendings"), Item("My Parcels", "/sender/parcels")]),
    Group("Account", [Item("Profile", "/sender/profile")])
  ]

  const ReceiverSidebar: seq<Group> := [
    Group("Deliveries", [Item("My Parcels", "/receiver/parcels"), Item("Delivery History", "/receiver/delivery-history")]),
    Group("Account", [Item("Profile", "/receiver/profile")])
  ]

  /** The dashboard prefix each role's sidebar links live under. */
  function DashboardBase(r: Role): string
  {
    match r
    case SuperAdmin => "/admin"
    case Admin => "/admin"
    case Sender => "/sender"
    case Receiver => "/receiver"
  }

  /** `getSidebarItems(userRole)`; no role (the `default` arm) gives no groups. */
  function GetSidebarItems(userRole: Option<Role>): (r: seq<Group>)
    ensures userRole.None? ==> r == []
    // every link of a role's sidebar lies under that role's dashboard prefix
    ensures userRole.Some? ==>
              forall g, i :: 0 <= g < |r| && 0 <= i < |r[g].items| ==>
                DashboardBase(userRole.value) + "/" <= r[g].items[i].url
  {
    match userRole
    case None => []
    case Some(role) =>
      match role
      case SuperAdmin => AdminSidebar
      case Admin => AdminSidebar
      case Sender => SenderSidebar
      case Receiver => ReceiverSidebar
  }

  /** The URLs of a list of groups, in order. */
  function Urls(gs: seq<Group>): seq<string>
  {
    if gs == [] then [] else ItemUrls(gs[0].items) + Urls(gs[1..])
  }

  function ItemUrls(items: seq<Item>): seq<string>
  {
    if items == [] then [] else [items[0].url] + ItemUrls(items[1..])
  }

  /** Both administrator roles see the same sidebar. */
  lemma AdminsShareSidebar()
    ensures GetSidebarItems(Some(SuperAdmin)) == GetSidebarItems(Some(Admin)) == AdminSidebar
  {
  }

  /** Every role's sidebar ends with an "Account" group holding its profile link. */
  lemma SidebarHasProfile(r: Role)
    ensures var gs := GetSidebarItems(Some(r));
            |gs| > 0 && gs[|gs| - 1] == Group("Account", [Item("Profile", DashboardBase(r) + "/profile")])
  {
    match r
    case SuperAdmin => assert "/admin" + "/profile" == "/admin/profile";
    case Admin => assert "/admin" + "/profile" == "/admin/profile";
    case Sender => assert "/sender" + "/profile" == "/sender/profile";
    case Receiver => assert "/receiver" + "/profile" == "/receiver/profile";
  }

  /** No two links of a sidebar share a URL. */
  lemma SidebarUrlsDistinct(r: Role)
    ensures var us := Urls(GetSidebarItems(Some(r)));
            forall i, j :: 0 <= i < j < |us| ==> us[i] != us[j]
  {
    var us := Urls(GetSidebarItems(Some(r)));
    match r
    case SuperAdmin =>
      assert us == ["/admin/analytics", "/admin/users", "/admin/parcels", "/admin/profile"];
    case Admin =>
      assert us == ["/admin/analytics", "/admin/users", "/admin/parcels", "/admin/profile"];
    case Sender =>
      assert us == ["/sender/pendings", "/sender/parcels", "/sender/profile"];
    case Receiver =>
      assert us == ["/receiver/parcels", "/receiver/delivery-history", "/receiver/profile"];
  }

  /** A prefix shared by every item URL of a list of groups is shared by all of `Urls`. */
  lemma {:induction false} UrlsKeepPrefix(gs: seq<Group>, pre: string)
    requires forall g, i :: 0 <= g < |gs| && 0 <= i < |gs[g].items| ==> pre <= gs[g].items[i].url
    ensures forall u :: u in Urls(gs) ==> pre <= u
  {
    if gs != [] {
      ItemUrlsKeepPrefix(gs[0].items, pre);
      UrlsKeepPrefix(gs[1..], pre);
    }
  }

  lemma {:induction false} ItemUrlsKeepPrefix(items: seq<Item>, pre: string)
    requires forall i :: 0 <= i < |items| ==> pre <= items[i].url
    ensures forall u :: u in ItemUrls(items) ==> pre <= u
  {
    if items != [] {
      ItemUrlsKeepPrefix(items[1..], pre);
    }
  }

  /** Every URL of a role's sidebar lies under that role's dashboard prefix. */
  lemma UrlsUnderBase(r: Role)
    ensures forall u :: u in Urls(GetSidebarItems(Some(r))) ==> DashboardBase(r) + "/" <= u
  {
    UrlsKeepPrefix(GetSidebarItems(Some(r)), DashboardBase(r) + "/");
  }

  /** The URLs of the three tables, in order. */
  lemma TableUrls()
    ensures Urls(AdminSidebar) == ["/admin/analytics", "/admin/users", "/admin/parcels", "/admin/profile"]
    ensures Urls(SenderSidebar) == ["/sender/pendings", "/sender/parcels", "/sender/profile"]
    ensures Urls(ReceiverSidebar) == ["/receiver/parcels", "/receiver/delivery-history", "/receiver/profile"]
  {
  }
}
