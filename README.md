# Parcel delivery client — a Dafny model

This project models the client-side rules of a parcel-delivery web client written in React
and TypeScript. Senders request parcels, receivers confirm or return them, and
administrators manage users and parcels.

What the model covers:

- **Access.** The `withAuth` route guard, the route table saying which role may open which
  path, the navigation bar's role-dependent links, and the dashboard sidebars.
- **Parcel lists.** Senders' pending and past parcels, receivers' incoming parcels and the
  administrators' parcel and user lists: their filters, row controls, page clamps and
  pagination windows.
- **Page state.** The pages whose handlers change state (page number, dialog note, loading
  ids, error maps) are classes. Each has `modifies` methods whose `ensures` state the whole
  new state.
- **Displays.** Tracking and status-log timelines, profile initials and title-cased names.
- **Forms.** The login, register, edit-profile and create-parcel forms: their validation
  rules, payloads and error reporting.

## Modelling decisions

- Each source file is one module. Shared helpers live in their own modules:
  - `Text` holds JavaScript string behaviour with ASCII case mapping;
  - `Lists` holds filter and sub-sequence facts;
  - `Types` holds the entities;
  - `Display` holds the participant resolvers shared by two pages;
  - `Paging` holds the page clamps shared by all lists;
  - `Session` holds the logout effects;
  - `FormErrors` holds the per-field error map: when several errors name one field, the last one wins.
- Nothing is executed. External inputs become explicit parameters:
  - network answers become parameters: `succeeded`, `response`, `Answer`, `Lookup`, `Creation`;
  - dialog answers become an `accepted` flag;
  - the query state becomes `isLoading` plus the user's email and role;
  - the library's email check becomes the function parameter `isEmail`.
- Toasts, navigation and dialogs are returned as outcome values, not performed.
- An async handler whose in-flight state is visible is split in two at its `await`. Examples: `BeginCancel`/`EndCancel` and `BeginToggleBlock`/`EndToggleBlock`.
- JavaScript details are written out explicitly:
  - `||` treats `""` as absent, unlike `??`;
  - `String.prototype.replace` with a string pattern replaces only the first match;
  - `"".split(" ")` is `[""]`;
  - `n[0]` of an empty word is `undefined`, which `join` drops;
  - in a lookahead `/^(?=.*[A-Z])/`, `.` stops at a line terminator.

### Behaviour worth noting

- **Guard while loading.** While the user query is loading, `withAuth` falls through both of its checks and renders the wrapped component (`WithAuth.Decide`).
- **Return on delivered parcels.** The incoming-parcels page shows an enabled Return button on a DELIVERED parcel (`IncomingParcels.ReturnCellOfListed`).
- **Profile logout.** The profile page's logout only removes the local token. It makes no back-end call, so the server session survives (`Session.ProfileLogoutOutcome`).

## Model

| member | source | states |
|---|---|---|
| WithAuth.Decide | src/utils/withAuth.tsx:10-30 | A finished query without an email redirects to `/login` whatever the role requirement. While loading, the component renders. With no requirement, a logged-in user renders. An array renders exactly the roles in it and a single role exactly that role; every other case goes to `/unauthorized`. |
| WithAuth.EmptyArrayRejectsEveryone | src/utils/withAuth.tsx:15-22 | An empty role array is truthy and turns every loaded, logged-in user away to `/unauthorized`. |
| WithAuth.SingleRoleIsSingletonArray | src/utils/withAuth.tsx:19-27 | A single required role decides exactly like the one-element array holding it. |
| Sidebar.GetSidebarItems | src/utils/getSidebarItems.ts:8-21 | No role gives no groups. Every link of a role's sidebar lies under that role's dashboard prefix. |
| Sidebar.AdminsShareSidebar | src/utils/getSidebarItems.ts:10-13 | The super administrator and the administrator get the same sidebar. |
| Sidebar.SidebarHasProfile | src/routes/adminSidebarItems.ts:23-28 | Every role's sidebar ends with an Account group holding exactly its own profile link. |
| Sidebar.SidebarUrlsDistinct | src/utils/getSidebarItems.ts:9-19 | No two links of one sidebar share a URL. |
| Sidebar.UrlsUnderBase | src/utils/getSidebarItems.ts:10-17 | Every URL a role's sidebar lists starts with that role's dashboard prefix and a slash. |
| Sidebar.TableUrls | src/routes/adminSidebarItems.ts:9-29 | The URLs of the three sidebar tables, in order. |
| Routes.MatchFrom | src/routes/index.tsx:22-78 | The chosen entry is one that matches and comes from the table. No entry is chosen exactly when none matches. |
| Routes.Enter | src/routes/index.tsx:45-72 | Entering an entry never yields "no route". An unguarded entry never redirects. A guarded entry sends a loaded query without an email to `/login`. A loading query never redirects. |
| Routes.Visit | src/routes/index.tsx:22-78 | A visit finds no route exactly when no entry of the table matches the path. |
| Routes.ResolveDashboard | src/routes/index.tsx:45-72 | A dashboard's own path and every link of its sidebar resolve to that dashboard's layout entry. |
| Routes.SidebarUrlResolves | src/routes/index.tsx:50-70 | Every sidebar link of a role resolves to that role's dashboard layout. |
| Routes.DashboardEntryShape | src/routes/index.tsx:46-69 | Each dashboard layout carries its role guard and its index redirect. |
| Routes.DashboardGuardAdmits | src/routes/index.tsx:46-66 | A logged-in user passes a dashboard's guard exactly when the dashboard is the user's own. |
| Routes.DashboardIsolation | src/routes/index.tsx:45-72 | A sidebar link opens for every role sharing that dashboard and sends every other logged-in role to `/unauthorized`. |
| Routes.IndexTargetIsSidebarLink | src/routes/index.tsx:49-69 | Each dashboard's index redirect targets one of that dashboard's sidebar links. |
| Routes.DashboardIndexRedirect | src/routes/index.tsx:47-69 | A dashboard's bare path redirects its own role to the index target, and that target then opens. |
| Routes.StatusLogPageIsOpen | src/routes/index.tsx:32 | `/parcel/<id>` opens with no user at all. |
| Routes.ResolveExact | src/routes/index.tsx:22-78 | Each fixed-path entry is the entry its own path resolves to. |
| Routes.UnwrappedPagesOpen | src/routes/index.tsx:27-77 | The pages not wrapped in `withAuth` open for any query state, including no user. |
| Routes.CreateParcelIsForSenders | src/routes/index.tsx:30 | `/create-parcel` opens for a logged-in sender only. Other logged-in roles go to `/unauthorized`, and users without an email go to `/login`. |
| Navbar.VisibleLinksAreShown | src/components/layout/Navbar.tsx:100-103 | The rendered links are exactly the table links whose role is PUBLIC or the user's, in table order. |
| Navbar.VisibleLinksOfRole | src/components/layout/Navbar.tsx:41-50 | The exact link list each role sees. Without a user, only the four public links. |
| Navbar.OneDashboardLink | src/components/layout/Navbar.tsx:47-50 | Every signed-in role sees exactly one Dashboard link, and it leads to that role's own dashboard. |
| Navbar.GetProfilePath | src/components/layout/Navbar.tsx:54-62 | The profile path is the profile link of the role's own sidebar. |
| Navbar.DisplayName | src/components/layout/Navbar.tsx:161 | The displayed name is the part of the email before the first `@`. It is the whole email when there is no `@`. |
| Navbar.AvatarLetter | src/components/layout/Navbar.tsx:155 | One upper-cased letter for a non-empty email, none for an empty one. |
| Navbar.RoleCaption | src/components/layout/Navbar.tsx:164 | The caption has the role literal's length. Position by position it is the lower-cased literal, except that the first underscore becomes a space. |
| Navbar.RoleCaptionValues | src/components/layout/Navbar.tsx:164 | The four captions are "admin", "sender", "receiver" and "super admin". |
| Navbar.SuperAdminCaption | src/components/layout/Navbar.tsx:164 | The super administrator's caption is "super admin": the first underscore becomes a space and everything is lower-cased. |
| Navbar.RoleCaptionsDistinct | src/components/layout/Navbar.tsx:164 | No two roles share a caption. |
| Navbar.HandleLogout | src/components/layout/Navbar.tsx:70-74 | Three effects: the logout call, the cache reset, then navigation to `/login`. The server session ends only if the call succeeds. The cache is emptied and `/login` reached whether or not it does, since the call's failure is not unwrapped. The local token is untouched. |
| Session.NavbarLogoutOutcome | src/components/layout/Navbar.tsx:70-74 | Running the navigation bar's three effects gives: token kept, server session ended exactly when the call succeeded, cache empty, location `/login`. |
| Session.LogoutMutationAloneKeepsParcels | src/redux/features/auth/auth.api.ts:15-20 | The logout call by itself removes no cache entry, parcel entries included; USER entries, the only tag the call invalidates, stay cached too. Only the cache reset that follows empties the cache. |
| Session.CacheEmptyBeforeNavigate | src/components/layout/Navbar.tsx:70-74 | In both logout sequences the cache is already empty when the navigation to `/login` happens. |
| Session.ProfileLogoutOutcome | src/pages/Profile.tsx:40-44 | The profile logout removes the token, keeps the server session, empties the cache and lands on `/login`. |
| Home.SecondaryButtons | src/pages/Home.tsx:62-110 | Exactly one secondary button. "Learn More" to `/about` without a role; "Create Parcel" for a sender; "My Parcels" for a receiver; "Analytics" for either administrator role. |
| Home.HomePage | src/pages/Home.tsx:14-60 | A skeleton exactly while loading. Otherwise two buttons, the first always "Track Your Package" to `/track`. |
| Reachability.TableLinkOpens | src/components/layout/Navbar.tsx:41-50 | A table link that the navigation bar shows to a settled visitor opens, either directly or through an index redirect. |
| Reachability.NavbarLinksOpen | src/components/layout/Navbar.tsx:100-103 | Every link the navigation bar renders opens for the visitor it is rendered to. |
| Reachability.HomeButtonsOpen | src/pages/Home.tsx:54-110 | Both hero buttons open for the visitor they are shown to. |
| Reachability.ProfileLinkOpens | src/components/layout/Navbar.tsx:173 | The profile entry of the user menu opens for its user. |
| Paging.TotalPagesOf | src/pages/Admin/Parcels.tsx:62 | Never zero. One without an envelope or for a zero count; the back end's count when it is positive. |
| Paging.TotalItemsOf | src/pages/Sender/Parcels.tsx:52 | Zero without an envelope, else the back end's total. |
| Paging.ShowPagination | src/pages/Sender/Parcels.tsx:152 | The controls show exactly when an envelope exists and its total exceeds the page size of ten; never without an envelope. |
| Paging.Prev | src/pages/Sender/PendingParcels.tsx:65 | Never below page 1, and at most one step back. |
| Paging.Next | src/pages/Sender/PendingParcels.tsx:66 | Never beyond the page count, and at most one step forward. |
| Paging.ClampsStayInRange | src/pages/Admin/Parcels.tsx:135-136 | A page inside `[1, totalPages]` stays inside it whichever button is pressed. |
| Paging.DisabledExactlyAtBounds | src/pages/Sender/Parcels.tsx:161-175 | Previous is disabled exactly where pressing it would not move, and the same holds for Next. An enabled button moves by exactly one. |
| Paging.NextThenPrev | src/pages/Admin/Parcels.tsx:135-136 | Forward then back returns to the same page unless Next was disabled. |
| IncomingParcels.VisibleParcelsSpec | src/pages/Receiver/IncomingParcels.tsx:38-41 | The list keeps, in order, exactly the parcels that are neither requested nor canceled. |
| IncomingParcels.ConfirmDisabledIff | src/pages/Receiver/IncomingParcels.tsx:43 | Confirm is disabled exactly for statuses other than IN_TRANSIT and DELIVERED. |
| IncomingParcels.ConfirmCellOfListed | src/pages/Receiver/IncomingParcels.tsx:148-168 | On a listed row: a Confirmed badge exactly for DELIVERED; an enabled Confirm exactly for IN_TRANSIT; a disabled Confirm for the rest. |
| IncomingParcels.ReturnCellOfListed | src/pages/Receiver/IncomingParcels.tsx:172-178 | On a listed row, a Returned badge exactly for RETURNED. Every other listed status, DELIVERED included, shows the Return button. |
| IncomingParcels.ConfirmClick | src/pages/Receiver/IncomingParcels.tsx:82-99 | A click sends the confirmation exactly when the dialog is accepted and the button is enabled. What is sent is the row's id, and only for an IN_TRANSIT parcel. |
| IncomingParcels.ReturnClick | src/pages/Receiver/IncomingParcels.tsx:102-119 | A click sends the return for the row's id exactly when the dialog is accepted. |
| IncomingParcels.GetPaginationRange | src/pages/Receiver/IncomingParcels.tsx:61-80 | The loops build exactly the window the four branches describe. |
| IncomingParcels.SmallWindowIsEveryPage | src/pages/Receiver/IncomingParcels.tsx:64-65 | With at most five pages the window is every page from 1, with no ellipsis. |
| IncomingParcels.LargeWindowShape | src/pages/Receiver/IncomingParcels.tsx:66-78 | With more than five pages the window has 6 or 7 items. It starts at page 1 and ends at the last page; numbers strictly increase; every ellipsis stands for a real gap; two ellipses are never adjacent. |
| IncomingParcels.WindowNumbersInRange | src/pages/Receiver/IncomingParcels.tsx:61-80 | Every number in the window is an existing page, and the current page is always among them. |
| IncomingParcels.ShowPagination | src/pages/Receiver/IncomingParcels.tsx:44-46 | The window shows exactly when an envelope's total exceeds ten and some parcel is listed; never for an empty list. |
| IncomingParcels.IncomingParcelsPage.constructor | src/pages/Receiver/IncomingParcels.tsx:18 | The page starts at 1. |
| IncomingParcels.IncomingParcelsPage.Window | src/pages/Receiver/IncomingParcels.tsx:254-258 | The rendered buttons are the window for the current page. The highlighted button is the current page's. |
| IncomingParcels.IncomingParcelsPage.Select | src/pages/Receiver/IncomingParcels.tsx:258 | Clicking a number of the window moves to that page, which is an existing page. |
| PendingParcels.PendingOfSpec | src/pages/Sender/PendingParcels.tsx:27 | The list keeps, in order, exactly the requested parcels of the page. |
| PendingParcels.ListedRowsOfferCancel | src/pages/Sender/PendingParcels.tsx:106-117 | Every listed row shows a Cancel button, since the Canceled badge is unreachable after the filter. Only the row whose cancel is in flight is disabled. |
| PendingParcels.PendingParcelsPage.constructor | src/pages/Sender/PendingParcels.tsx:13 | Page 1 and no loading id. |
| PendingParcels.PendingParcelsPage.BeginCancel | src/pages/Sender/PendingParcels.tsx:28-41 | A declined dialog sends nothing and changes nothing. An accepted one marks the row as loading and sends the cancel for its id. |
| PendingParcels.PendingParcelsPage.EndCancel | src/pages/Sender/PendingParcels.tsx:42-61 | The toast follows the answer. The loading id is cleared on success and on failure. |
| PendingParcels.PendingParcelsPage.HandlePrev | src/pages/Sender/PendingParcels.tsx:65 | The page becomes the clamped previous page; the loading id is kept. |
| PendingParcels.PendingParcelsPage.HandleNext | src/pages/Sender/PendingParcels.tsx:66 | The page becomes the clamped next page; the loading id is kept. |
| SenderParcels.ComplementOfPending | src/pages/Sender/Parcels.tsx:45 | Past requests and pending parcels split the fetched page between them: lengths and multisets add up to the page. The list keeps order and holds no REQUESTED parcel. |
| SenderParcels.StatusLogsTarget | src/pages/Sender/Parcels.tsx:48 | The target is `/parcel/` followed by the id. |
| SenderParcels.StatusLogsTargetSpec | src/pages/Sender/Parcels.tsx:48 | Two rows share a target exactly when they share an id. The target page opens without a user. |
| SenderParcels.SenderParcelsPage.constructor | src/pages/Sender/Parcels.tsx:26 | The page starts at 1. |
| SenderParcels.SenderParcelsPage.HandlePrev | src/pages/Sender/Parcels.tsx:161 | The page becomes the clamped previous page. |
| SenderParcels.SenderParcelsPage.HandleNext | src/pages/Sender/Parcels.tsx:174 | The page becomes the clamped next page. |
| AdminParcels.SearchName | src/pages/Admin/Parcels.tsx:66-67 | A bare id contributes nothing to the search; a summary contributes its name. |
| AdminParcels.ParticipantCell | src/pages/Admin/Parcels.tsx:260-265 | A bare id shows itself; a summary shows its name, or "N/A" for an empty name. |
| AdminParcels.FilteredParcelsSpec | src/pages/Admin/Parcels.tsx:65-72 | The search keeps, in order, exactly the parcels whose tracking id or participant name contains it, ignoring case. |
| AdminParcels.EmptySearchKeepsAll | src/pages/Admin/Parcels.tsx:65-72 | An empty search keeps the whole page. |
| AdminParcels.BareIdsAreNotSearched | src/pages/Admin/Parcels.tsx:66-71 | With bare-id participants only the tracking id is searched, although the cells show the ids. |
| AdminParcels.CountsPartition | src/pages/Admin/Parcels.tsx:183-197 | The active and blocked cards partition the page; a parcel without the flag counts as active. |
| AdminParcels.ShowingRange | src/pages/Admin/Parcels.tsx:352 | On a page holding rows, the "Showing" line names a non-empty range of at most ten rows within the total. It ends at the total exactly on the last page. |
| AdminParcels.PageButtons | src/pages/Admin/Parcels.tsx:366-367 | `min(5, totalPages)` buttons numbered 1, 2, … in order. |
| AdminParcels.PageButtonsSpec | src/pages/Admin/Parcels.tsx:366-380 | Buttons name existing pages. The ellipsis shows exactly when some page has no button. |
| AdminParcels.AdminParcelsPage.constructor | src/pages/Admin/Parcels.tsx:40-58 | Empty search, page 1, dialog closed with an empty note, nothing selected or loading. |
| AdminParcels.AdminParcelsPage.SetSearch | src/pages/Admin/Parcels.tsx:237 | Typing a search also returns to page 1, and nothing else changes. |
| AdminParcels.AdminParcelsPage.HandlePrev | src/pages/Admin/Parcels.tsx:135 | The clamped previous page, and nothing else changes. |
| AdminParcels.AdminParcelsPage.HandleNext | src/pages/Admin/Parcels.tsx:136 | The clamped next page, and nothing else changes. |
| AdminParcels.AdminParcelsPage.GoTo | src/pages/Admin/Parcels.tsx:366-373 | A page button moves to its number, an existing page, and nothing else changes. |
| AdminParcels.AdminParcelsPage.HandleOpenModal | src/pages/Admin/Parcels.tsx:101-106 | The dialog opens for the chosen parcel and status, with an empty note. |
| AdminParcels.AdminParcelsPage.SetNote | src/pages/Admin/Parcels.tsx:540-541 | The note takes the typed text, and nothing else changes. |
| AdminParcels.AdminParcelsPage.CloseModal | src/pages/Admin/Parcels.tsx:546 | The dialog closes and keeps its note and selection. |
| AdminParcels.AdminParcelsPage.SubmitStatus | src/pages/Admin/Parcels.tsx:108-121 | Without a selection nothing is sent. Otherwise the update carries the selected parcel's id, the status and the note. The dialog closes only on success. The blank-note gate in front of it is `ClickUpdateStatus`. |
| AdminParcels.AdminParcelsPage.SubmitDisabled | src/pages/Admin/Parcels.tsx:547 | The submit button is disabled exactly when the note is empty or all whitespace. |
| AdminParcels.AdminParcelsPage.ClickUpdateStatus | src/pages/Admin/Parcels.tsx:547 | A disabled button sends nothing and keeps the dialog. An enabled one submits as `SubmitStatus` does, so every sent note has non-blank content. |
| AdminParcels.AdminParcelsPage.BeginToggleBlock | src/pages/Admin/Parcels.tsx:123-126 | The row's id becomes the loading id, and the toggle is sent for it. |
| AdminParcels.AdminParcelsPage.EndToggleBlock | src/pages/Admin/Parcels.tsx:128-132 | The loading id is cleared on success and failure alike. |
| AdminParcels.ToggleCaption | src/pages/Admin/Parcels.tsx:325-327 | The caption is "Unblock" exactly for a blocked parcel. |
| AdminParcels.ToggleDisablesOneRow | src/pages/Admin/Parcels.tsx:320 | While a toggle is in flight exactly the toggled row's button is disabled, and none is once it ends. |
| AdminUsers.FilteredUsers | src/pages/Admin/Users.tsx:26-30 | A list exactly when the query has one. |
| AdminUsers.FilteredUsersSpec | src/pages/Admin/Users.tsx:26-30 | The search keeps, in order, exactly the users whose name or email contains it, ignoring case. |
| AdminUsers.EmptySearchKeepsAll | src/pages/Admin/Users.tsx:26-30 | An empty search keeps every user. |
| AdminUsers.Handle | src/pages/Admin/Users.tsx:32-67 | Block, unblock and role change are refused exactly for the super administrator. Any other user gets the call the action names, for that user's id. |
| AdminUsers.ToggleOf | src/pages/Admin/Users.tsx:227-243 | Unblock is shown exactly for a blocked user. Either button is disabled exactly for the super administrator. |
| AdminUsers.ControlsOfRow | src/pages/Admin/Users.tsx:200-208 | The role select never offers SUPER_ADMIN. All of a super administrator's controls are disabled, and nobody else's are. |
| AdminUsers.EnabledToggleIsSent | src/pages/Admin/Users.tsx:227-243 | An enabled button is never refused and sends the call its caption names. |
| AdminUsers.Answer | src/pages/Admin/Users.tsx:38-67 | A success toast begins with the user's name, and a role change's ends with the new role. A failure shows the action's fixed text: "Failed to block user", "Failed to unblock user" or "Role update failed". |
| AdminUsers.CountsSpec | src/pages/Admin/Users.tsx:101-142 | Active plus blocked is at most the total. The Admins card counts both administrator roles. |
| Display.UserName | src/pages/TrackParcel.tsx:30-34 | "N/A" for a missing participant, the id for a bare id, the name for a summary. |
| Display.UserEmail | src/pages/TrackParcel.tsx:35-39 | "N/A" for a missing participant, "-" for a bare id, the email for a summary. |
| Display.ResolversAgree | src/pages/Sender/StatusLog.tsx:18-28 | The two resolvers agree on which participants are missing. A bare id never has an email. |
| Display.LogsOf | src/pages/TrackParcel.tsx:54 | The stored logs, or none when the parcel or its logs are missing. |
| Display.ModifiedBy | src/pages/Sender/StatusLog.tsx:86 | The updater's name for a summary; otherwise "N/A". |
| Display.Timeline | src/pages/Sender/StatusLog.tsx:76-90 | One row per log entry, in stored order, with its status, modifier and note. |
| TrackParcel.TrackRequest | src/pages/TrackParcel.tsx:20-21 | No lookup exactly when the id is blank. Otherwise the id is sent as typed. |
| TrackParcel.LookupIsUntrimmed | src/pages/TrackParcel.tsx:20-21 | Surrounding blanks are sent to the back end. |
| TrackParcel.TrackNote | src/pages/TrackParcel.tsx:225-228 | A note shows exactly when it is a non-empty string. |
| TrackParcel.TrackTimeline | src/pages/TrackParcel.tsx:198-229 | The timeline is drawn exactly when there are logs, with one row per log in order. Each row holds the log's status and the modifier caption, and a note exactly when the log has a non-empty one, which is then shown as stored. |
| TrackParcel.TrackParcelPage.constructor | src/pages/TrackParcel.tsx:14-15 | Empty id and no parcel. |
| TrackParcel.TrackParcelPage.SetTrackingId | src/pages/TrackParcel.tsx:14 | The id takes the typed text; the parcel is kept. |
| TrackParcel.TrackParcelPage.HandleTrack | src/pages/TrackParcel.tsx:19-27 | A blank id raises "Enter a tracking ID" and keeps the parcel. A found parcel replaces it. A failure raises "Parcel not found" and clears it. |
| StatusLog.NoteText | src/pages/Sender/StatusLog.tsx:88 | "No note" for an absent note; otherwise the note, even an empty one. |
| StatusLog.Render | src/pages/Sender/StatusLog.tsx:43-66 | Loading first, then the load error, then "No parcel found", and otherwise the details of that parcel, with its tracking id and current status. |
| StatusLog.ShownTimeline | src/pages/Sender/StatusLog.tsx:72-90 | A shown parcel's timeline exists exactly when it has logs, one row per log in order. Each row holds the log's status; the note when present, even an empty one, else "No note"; and the updater's name for a populated updater, else "N/A" for a missing one or a bare id. |
| StatusLog.ShownParticipants | src/pages/Sender/StatusLog.tsx:55-59 | The participant cells follow the resolvers' three cases. |
| Profile.FirstChars | src/pages/Profile.tsx:33 | Its length is the number of non-empty words: an empty word gives no character. |
| Profile.FirstCharsSpec | src/pages/Profile.tsx:33 | The k-th character is the first character of the k-th non-empty word, in word order. There is one per word exactly when no word is empty. |
| Profile.Initials | src/pages/Profile.tsx:32-34 | "U" for an absent or empty name. Otherwise the k-th initial is the upper-cased first character of the k-th non-empty word. |
| Profile.InitialsSpec | src/pages/Profile.tsx:32-34 | A name whose words are separated by single spaces has one initial per word, in word order: the k-th is the upper-cased first character of the k-th word. |
| Profile.JohnDoeInitials | src/pages/Profile.tsx:32-34 | "John Doe" has the initials "JD". |
| Profile.OneWordInitial | src/pages/Profile.tsx:33 | A one-word name's initial is its upper-cased first character. |
| Profile.CapitalizeAll | src/pages/Profile.tsx:62-64 | Each word capitalised, keeping the word count. |
| Profile.TitleCasedNameSpec | src/pages/Profile.tsx:61-65 | The title changes only letter case and keeps the length. Its words are exactly the name's words, capitalised. |
| Profile.RoleBadge | src/pages/Profile.tsx:78-80 | "N/A" without a role. Otherwise the role literal's length, its first character upper-cased and every later one lower-cased. |
| Profile.SuperAdminBadge | src/pages/Profile.tsx:79 | The super administrator's badge is "Super_admin": the underscore is kept. |
| Profile.HandleLogout | src/pages/Profile.tsx:40-44 | Three effects with navigation last: token removed, server session kept, cache empty, location `/login`. |
| LoginForm.Payload | src/components/modules/authentication/LoginForm.tsx:37-40 | Both values are sent trimmed. |
| LoginForm.PayloadIsTrimmed | src/components/modules/authentication/LoginForm.tsx:37-40 | Neither sent value begins or ends with whitespace, and each is a piece of what was typed. |
| LoginForm.OnAnswer | src/components/modules/authentication/LoginForm.tsx:42-67 | Only a successful answer navigates, and to `/`. The three exact messages set their field errors with no toast and no navigation. |
| LoginForm.RejectionSpec | src/components/modules/authentication/LoginForm.tsx:52-67 | A rejection sets a field error exactly for the three known messages. Anything else shows only the generic toast, and a rejection never navigates. |
| LoginForm.NearMissIsGeneric | src/components/modules/authentication/LoginForm.tsx:52-53 | A message differing in case or spacing, or a missing one, falls to the generic toast. |
| RegisterForm.ValidIff | src/components/modules/authentication/RegisterForm.tsx:30-52 | The form is accepted exactly when all of these hold: a 3-to-50 character name; an address the email check accepts; an 8+ character password with an upper-case letter, a special character and a digit before its first line break; a confirmation equal to the password; and the role SENDER or RECEIVER. |
| RegisterForm.MismatchOnConfirm | src/components/modules/authentication/RegisterForm.tsx:49-52 | A differing confirmation is reported on `confirmPassword`, and the form is rejected. |
| RegisterForm.EmptyRoleReportsBoth | src/components/modules/authentication/RegisterForm.tsx:44-47 | The empty role gets both role messages. |
| RegisterForm.UppercaseAfterLineBreak | src/components/modules/authentication/RegisterForm.tsx:40 | An upper-case letter after a line break does not satisfy the rule. |
| RegisterForm.PayloadOf | src/components/modules/authentication/RegisterForm.tsx:70-75 | Name, email, password and role are copied; the confirmation is dropped. |
| RegisterForm.SubmittedRoleIsSelfService | src/components/modules/authentication/RegisterForm.tsx:44-47 | A submitted registration asks for SENDER or RECEIVER, never an administrator role. |
| RegisterForm.OnAnswer | src/components/modules/authentication/RegisterForm.tsx:78-93 | Success navigates to `/login`. An `errors` array sets each error on its own field, the last entry per field winning, with no toast. Otherwise the back end's message is toasted, or failing that the fallback text. |
| FormErrors.Collect | src/pages/EditProfile.tsx:88-93 | The loop produces exactly the last-wins error map of the issues. |
| FormErrors.RecordedDomain | src/components/modules/authentication/RegisterForm.tsx:86-88 | A field gets a message exactly when some issue names it. |
| FormErrors.RecordedLast | src/pages/EditProfile.tsx:90-93 | The message a field gets is that of the last issue naming it. |
| EditProfile.PhonePatternIff | src/pages/EditProfile.tsx:34 | The phone pattern matches exactly ten or more class characters, or a '+' followed by ten or more. |
| EditProfile.Issues | src/pages/EditProfile.tsx:29-38 | No problem is ever attached to the address. |
| EditProfile.IssuesSpec | src/pages/EditProfile.tsx:29-38 | The form is accepted exactly with a non-empty name and an empty or well-formed phone, whatever the address. |
| EditProfile.PhoneExamples | src/pages/EditProfile.tsx:34 | Ten digits match. Nine digits do not, and neither does a double '+'. |
| EditProfile.Prefill | src/pages/EditProfile.tsx:63-72 | The form takes the user's name, and the phone and address with "" for absent values. |
| EditProfile.Cleared | src/pages/EditProfile.tsx:77 | The edited field no longer shows an error. Every other field shows what it showed. |
| EditProfile.Updated | src/pages/EditProfile.tsx:76 | Only the edited field changes. |
| EditProfile.RecordedErrorsSpec | src/pages/EditProfile.tsx:87-95 | After a rejected submit every field with a problem shows a message. Fields without one, the address included, show nothing. |
| EditProfile.EditProfilePage.constructor | src/pages/EditProfile.tsx:49-55 | Empty values and no errors. |
| EditProfile.EditProfilePage.Load | src/pages/EditProfile.tsx:63-72 | A loaded user replaces the values; otherwise nothing changes. |
| EditProfile.EditProfilePage.HandleInputChange | src/pages/EditProfile.tsx:74-79 | The field takes the value and its error is cleared. A failed update goes back to idle; any other update state is kept. |
| EditProfile.EditProfilePage.HandleSubmit | src/pages/EditProfile.tsx:81-109 | The update is sent exactly when the schema accepts the form and a user id exists, and it carries that id and the values. Sending puts the update in flight. A rejected form records its problems and sends nothing. |
| EditProfile.EditProfilePage.UpdateAnswered | src/pages/EditProfile.tsx:103-108 | An in-flight update ends as succeeded or failed according to the answer, and either one shows a banner. Values and errors are kept. |
| EditProfile.Banner | src/pages/EditProfile.tsx:168-182 | A banner shows exactly after a success or a failure: the success text after a success, the failure text after a failure. |
| CreateParcel.ValidIff | src/pages/Sender/CreateParcel.tsx:17-24 | Accepted exactly when all of these hold: an accepted email; a type of 2+ characters; a weight of at least 0.1; addresses of 5+ characters; a fee of at least 0. |
| CreateParcel.FeeRulesCoincide | src/pages/Sender/CreateParcel.tsx:23 | Both fee rules fire exactly for a negative fee. A zero fee passes. |
| CreateParcel.SmallWeight | src/pages/Sender/CreateParcel.tsx:20 | A weight of 0.05 passes positivity and fails only the minimum. |
| CreateParcel.PayloadOf | src/pages/Sender/CreateParcel.tsx:61-68 | The receiver is the found id; type, weight, addresses and fee are copied unchanged. |
| CreateParcel.PayloadOmitsEmail | src/pages/Sender/CreateParcel.tsx:61-68 | The payload does not depend on the email. |
| CreateParcel.FailureToast | src/pages/Sender/CreateParcel.tsx:77 | The back end's message when it is non-empty, else "Failed to create parcel". |
| CreateParcel.CreateParcelForm.constructor | src/pages/Sender/CreateParcel.tsx:36-43 | The default values. |
| CreateParcel.CreateParcelForm.Edit | src/pages/Sender/CreateParcel.tsx:119-239 | The form holds the typed values. |
| CreateParcel.CreateParcelForm.Submit | src/pages/Sender/CreateParcel.tsx:49-79 | A rejected form looks nothing up. A failed lookup or a falsy id creates nothing; the latter raises "Receiver not found!". Otherwise the payload for the found id is sent, and the form is reset exactly when creation succeeds. |

## Left out

- Unicode: case mapping is ASCII only, where JavaScript's `toLowerCase`/`toUpperCase` map all of Unicode.
- String length: lengths count characters, where JavaScript counts UTF-16 code units. A character outside the Basic Multilingual Plane counts once here and twice in the source's `.length` checks.
- The email format check of the schema library is a function parameter, not a definition.
- Which message a field shows when the schema reports several problems for it is the form library's choice. The model gives the full list of problems and the accept/reject verdict.
- Network calls, caching and async timing: answers are inputs and effects are returned values. The toast texts of the receiver page's dialogs are not modelled; only whether a call is sent is.
- `generateRoutes` is not part of this model. A dashboard layout's children are taken to be its sidebar's URLs. The router's fallback for unknown paths is a `NoRoute` outcome.
- `getSidebarItems` returns fresh copies of the tables; the model returns the tables themselves, since nothing mutates them.
- Floating point: weight and fee are exact reals. The revenue card's sum with `toFixed` (src/pages/Admin/Parcels.tsx:211) is not modelled.
- Dates, styling, colours, icons, layout and the `picture` field are not modelled. So are the profile page's display of phone and address, and the sender name cell of the incoming-parcels table.
- The phone regular expression is encoded as character-class predicates rather than run by a regex engine. The number inputs' `NaN` is the `None` value.
- Matches: paths are compared exactly, in canonical form. The router's case-insensitive matching and its optional trailing slash are not modelled.
- FilteredParcels: only the client-side search pass is modelled. The search is also sent to the back end as `searchTerm` (src/pages/Admin/Parcels.tsx:47), and that server-side filter is not. `BareIdsAreNotSearched` is about the client-side pass only.
- Session: an invalidated cache tag makes the library refetch its entries. That refetch is not modelled, so the logout call leaves the cache as it was.
- EditProfile: the update state's reset when the page unmounts (src/pages/EditProfile.tsx:57-60) is not modelled.
- About, Contact, Footer, Unauthorized, the not-found page, Analytics and Delivery History are not part of this model.
