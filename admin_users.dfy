/** The administrators' user list: the client-side search, the block, unblock and role-change
    handlers with their super-administrator guard, the row controls and the stat cards. */
module AdminUsers {
  import opened Types
  import opened Text
  import opened Lists

  // ---------------------------------------------------------------- search

  /** The condition of `filteredUsers`: the lower-cased search occurs in the lower-cased name
      or email. */
  predicate MatchesSearch(search: string, u: User)
  {
    Includes(Lower(u.name), Lower(search)) || Includes(Lower(u.email), Lower(search))
  }

  /** `data?.data?.filter(...)`: no list when the query has none. */
  function FilteredUsers(users: Option<seq<User>>, search: string): (r: Option<seq<User>>)
    ensures r.Some? <==> users.Some?
  {
    if users.None? then None else Some(Filter(users.value, u => MatchesSearch(search, u)))
  }

  /** The search keeps, in order, exactly the users whose name or email contains it. */
  lemma FilteredUsersSpec(users: seq<User>, search: string)
    ensures var r := FilteredUsers(Some(users), search).value;
      IsSubsequence(r, users)
      && (forall i :: 0 <= i < |r| ==> r[i] in users && MatchesSearch(search, r[i]))
      && (forall i :: 0 <= i < |users| && MatchesSearch(search, users[i]) ==> users[i] in r)
      && (forall x :: multiset(r)[x] == if MatchesSearch(search, x) then multiset(users)[x] else 0)
  {
    FilterMultiset(users, u => MatchesSearch(search, u));
    FilterIsSubsequence(users, u => MatchesSearch(search, u));
    FilterMembers(users, u => MatchesSearch(search, u));
  }

  /** An empty search keeps every user. */
  lemma EmptySearchKeepsAll(users: seq<User>)
    ensures FilteredUsers(Some(users), "") == Some(users)
  {
    forall i | 0 <= i < |users| ensures MatchesSearch("", users[i]) {
      assert Lower("") == [];
      IncludesEmpty(Lower(users[i].name));
    }
    FilterAll(users, u => MatchesSearch("", u));
  }

  // ---------------------------------------------------------------- handlers

  /** What an administrator asks for on a row. */
  datatype Action = Block | Unblock | ChangeRole(role: Role)

  /** The call a handler makes. */
  datatype Request = BlockUser(id: string) | UnblockUser(id: string) | UpdateUserRole(id: string, role: Role)

  /** A handler either refuses with an error toast, or makes its call. */
  datatype Outcome = Refused(message: string) | Sent(request: Request)

  /** `handleBlock`, `handleUnblock` and `handleRoleChange` up to their call. */
  function Handle(u: User, a: Action): (o: Outcome)
    // the super administrator is never blocked, unblocked or re-roled: an error and no call
    ensures o.Refused? <==> u.role == SuperAdmin
    // any other user gets the call the action names, for that user's id
    ensures o.Sent? ==> match a
      case Block => o.request == BlockUser(u.id)
      case Unblock => o.request == UnblockUser(u.id)
      case ChangeRole(r) => o.request == UpdateUserRole(u.id, r)
  {
    if u.role == SuperAdmin then
      Refused(match a
        case Block => "You cannot block the Super Admin"
        case Unblock => "You cannot unblock the Super Admin"
        case ChangeRole(_) => "You cannot change the role of the Super Admin")
    else
      Sent(match a
        case Block => BlockUser(u.id)
        case Unblock => UnblockUser(u.id)
        case ChangeRole(r) => UpdateUserRole(u.id, r))
  }

  /** The toast after the call is answered: a success names the user and, for a role change,
      ends with the new role; a failure is a fixed text per action that names nobody. */
  function Answer(u: User, a: Action, succeeded: bool): (toast: string)
    ensures succeeded ==> u.name <= toast && |toast| > |u.name|
    ensures succeeded && a.ChangeRole? ==>
      |RoleName(a.role)| <= |toast| && toast[|toast| - |RoleName(a.role)|..] == RoleName(a.role)
    ensures !succeeded && a.Block? ==> toast == "Failed to block user"
    ensures !succeeded && a.Unblock? ==> toast == "Failed to unblock user"
    ensures !succeeded && a.ChangeRole? ==> toast == "Role update failed"
  {
    match a
    case Block => if succeeded then u.name + " blocked successfully" else "Failed to block user"
    case Unblock => if succeeded then u.name + " unblocked successfully" else "Failed to unblock user"
    case ChangeRole(r) => if succeeded then u.name + " role updated to " + RoleName(r) else "Role update failed"
  }

  // ---------------------------------------------------------------- row controls

  /** The role select's options. */
  const RoleOptions: seq<Role> := [Sender, Receiver, Admin]

  /** The block/unblock cell: exactly one of the two buttons. */
  datatype ToggleButton = BlockButton(disabled: bool) | UnblockButton(disabled: bool)

  predicate RoleSelectDisabled(u: User) { u.role == SuperAdmin }

  function ToggleOf(u: User): (b: ToggleButton)
    ensures b.UnblockButton? <==> u.isActive == Blocked
    ensures b.disabled <==> u.role == SuperAdmin
  {
    if u.isActive == Blocked then UnblockButton(u.role == SuperAdmin) else BlockButton(u.role == SuperAdmin)
  }

  /** The select never offers the super-administrator role, so no role change promotes a user
      to it from this page; and every control of a super administrator's row is disabled. */
  lemma ControlsOfRow(u: User)
    ensures SuperAdmin !in RoleOptions && Admin in RoleOptions
    ensures u.role == SuperAdmin ==> RoleSelectDisabled(u) && ToggleOf(u).disabled
    ensures u.role != SuperAdmin ==> !RoleSelectDisabled(u) && !ToggleOf(u).disabled
  {
  }

  /** A control that is enabled always leads to a call: an enabled button is never refused,
      and the call it makes is the one its caption says. */
  lemma EnabledToggleIsSent(u: User)
    requires !ToggleOf(u).disabled
    ensures ToggleOf(u).BlockButton? ==> Handle(u, Block) == Sent(BlockUser(u.id))
    ensures ToggleOf(u).UnblockButton? ==> Handle(u, Unblock) == Sent(UnblockUser(u.id))
  {
  }

  // ---------------------------------------------------------------- stat cards

  predicate IsActive(u: User) { u.isActive == Active }

  predicate IsBlockedUser(u: User) { u.isActive == Blocked }

  predicate IsAdministrator(u: User) { u.role == Admin || u.role == SuperAdmin }

  predicate IsAdminRole(u: User) { u.role == Admin }

  predicate IsSuperAdminRole(u: User) { u.role == SuperAdmin }

  /** `data?.data?.length || 0` and the three filtered counts. */
  function TotalCount(users: Option<seq<User>>): nat { if users.None? then 0 else |users.value| }

  function ActiveCount(users: Option<seq<User>>): nat { if users.None? then 0 else |Filter(users.value, IsActive)| }

  function BlockedCount(users: Option<seq<User>>): nat { if users.None? then 0 else |Filter(users.value, IsBlockedUser)| }

  function AdminCount(users: Option<seq<User>>): nat { if users.None? then 0 else |Filter(users.value, IsAdministrator)| }

  /** The Active and Blocked cards never count a user twice, so together they are at most the
      total (inactive users are in neither); the Admins card counts both administrator roles. */
  lemma CountsSpec(users: Option<seq<User>>)
    ensures ActiveCount(users) + BlockedCount(users) <= TotalCount(users)
    ensures users.Some? ==>
              AdminCount(users) == |Filter(users.value, IsAdminRole)| + |Filter(users.value, IsSuperAdminRole)|
  {
    if users.Some? {
      FilterDisjoint(users.value, IsActive, IsBlockedUser);
      FilterEither(users.value, IsAdminRole, IsSuperAdminRole, IsAdministrator);
    }
  }
}
