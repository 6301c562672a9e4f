# IT-support ticketing: a verified model of the ticket workflow and its pages

This project models the core of a small IT-support ticketing system. It has
two parts.

**The backend (Node/Express with a Sequelize database).**

- Tickets (`tickets` table) with their comments and notifications.
- The ticket handlers:
  - creating a ticket;
  - changing its status, with a notification to the owner;
  - assigning it (an admin assigns anyone, a staff member only themselves);
  - editing and deleting it;
  - posting a comment.
- The read handlers: the role-filtered list, one ticket with its comments,
  the dashboard counters, the status chart, and the counting part of the
  admin report.
- The role gate in front of the routes.
- The unread-notification list and the mark-as-read route.
- Sign-in and sign-up.

**The frontend (React).**

- The shell's route table: the role derived from the stored token, the root
  redirect, the protected routes rendered per role, and the catch-all
  redirect.
- The navigation bar: the header identity, the sidebar links filtered by
  role label, the hide-on-sign-in rule, and the notification list.
- The ticket pages:
  - the admin dashboard;
  - the end-user dashboard;
  - "My Ticket", with its in-place counter update on delete;
  - the assignment page.
  Each page builds rows with a `TKT-` display id and filters them by search
  and select boxes. The admin dashboard, the end-user dashboard and the
  assignment page sort by ticket number; "My Ticket" keeps the load order.
  The admin dashboard and "My Ticket" count statuses, the assignment page
  counts assignment, and the end-user dashboard shows no counters.
- The user-management page: its filter and its add-user dialog.
- The system-settings page: its forms, its switches and its table of
  priority levels.

## How it is built

Each source file is one module.

| module | file |
|---|---|
| `Models` | backend/models/ticket.js and the other schema files |
| `TicketQueries` | the read handlers of tickets.controller.js |
| `TicketsController` | the state-changing handlers of tickets.controller.js |
| `RoleMiddleware` | role.middleware.js |
| `NotificationsRoutes` | notifications.routes.js |
| `AuthController` | auth.controller.js |
| `AppRoutes` | App.jsx |
| `Navbar` | Navbar.jsx |
| `TicketRows` | the row building the four ticket pages share |
| `DashboardAdmin`, `DashboardUser`, `MyTicket`, `AssignAdmin`, `ManagesAdmin`, `SystemSetting` | one page each |

The module `Common` holds the generic pieces:

- `Option`;
- an order-preserving `Filter` with its lemmas;
- subsequences;
- bucket counts;
- an insertion sort proved sorted and a permutation;
- ASCII lower-casing and substring search;
- JavaScript's `parseInt` on decimal text.

### The database and the backend handlers

The database is one object, `Models.Db`. Its fields are:

- the tickets map, keyed by id;
- the users map;
- the comment and notification lists, kept in creation order;
- the next auto-increment ids.

`Db.Valid()` states what the database itself guarantees: issued keys and
rows that meet the column constraints. The constraints are:

- the title is at most 200 characters;
- priority is in Low/Medium/High or null;
- status is in Open/In Progress/Resolved/Closed or null.

Status and priority are stored as the strings a handler writes. A write that
breaks a constraint is answered with 500 and leaves every table unchanged,
which models a failed `save`.

Each state-changing handler is a method on the database. Its contract
states:

- the HTTP code for every input;
- the exact new contents of the table it writes;
- that the other tables and the id counters it does not advance are unchanged, and
  by how much it advances the one it does.

Hashing, password comparison, token decoding and the clock are parameters.

### The frontend pages

Each page's state is a class: the loaded rows, the counters, the dialog
state, the form, the settings record or the priority table. Each handler is
a method whose contract gives the whole new state. Filters are functions.
Each filter is an order-preserving subsequence, or a sorted permutation of
the kept rows, and its membership contract states both directions.

### What the proofs show about the code as written

The model follows the code where it differs from what its comments or its
UI suggest. Several properties proved here show behaviour that is likely
unintended:

- `TicketQueries.DetailExposesCreatorHash`: GET /tickets/:id takes no caller
  into account. It returns the creator's complete user row, password hash
  included.
- `AuthController.Register`: it keeps any requested `role_id`, including
  the admin role 3.
- `TicketsController.UpdateTicket`: it has no ownership check.
- There are no status transition rules:
  - `UpdateTicketStatus` writes any enum value in any order;
  - `Assigned` moves only "Open" to "In Progress".
- `TicketsController.AssignTicket`: the 404 for a missing ticket comes before
  the role check. The "end users are always refused" behaviour holds only
  behind the route's role gate (`AssignRoute`).
- `TicketsController.CreateTicket`: the body's due date is not stored,
  because the `tickets` table declares no such column.
- `AppRoutes.UndecodableTokenLoops`: a stored token that does not decode
  gives the empty role. The root then redirects to `/DashboardUser`, and
  that path redirects back to the root.
- `Navbar.UndecodableTokenShowsDeadLink`: for that same token the header
  says "End User" and offers the end-user dashboard link, a page the route
  table does not render.
- `DashboardAdmin.UnassignedChoiceEmptiesTable`: the admin dashboard's
  "Unassigned" status option compares against the status. It empties the
  table whatever the assignments are.
- `MyTicket.NullStatusDeleteDrifts`: deleting a ticket whose status is null
  lowers the "closed" counter, so the counters drift from a recount.
  `MyTicket.DeleteKeepsStatsInSync` proves they agree when ids are unique
  and every status is one of the four.
- `SystemSetting.DeletedIdReused`: after the highest priority level is
  deleted, a newly added level reuses its id.
- `ManagesAdmin.Added`: a user added through the dialog keeps the typed
  password and its confirmation in the list entry.

## Model

| member | source | states |
|---|---|---|
| Models.Db.constructor | backend/models/ticket.js:3-17 | an empty database satisfies the schema invariant: issued keys, conforming rows, increasing comment and notification ids |
| RoleMiddleware.RequireRole | backend/middlewares/role.middleware.js:2-19 | passes on exactly when a user is present and its role id is allowed; no user gives 401; a role outside the list gives 403 |
| RoleMiddleware.PresetsAdmit | backend/middlewares/role.middleware.js:24-27 | requireAdmin admits only role 3; requireStaff and requireStaffOrAdmin admit exactly 2 and 3; requireUser admits 1 to 3 |
| RoleMiddleware.EmptyAllowListRefusesAll | backend/middlewares/role.middleware.js:2 | the default empty allow-list refuses every request |
| RoleMiddleware.RequireRoleMonotone | backend/middlewares/role.middleware.js:10-17 | widening the allow-list never refuses a caller the narrower list admitted |
| NotificationsRoutes.Reverse | backend/routes/notifications.routes.js:13 | the reversed list has the same length, with element i taken from position length-1-i |
| NotificationsRoutes.MyUnread | backend/routes/notifications.routes.js:10-16 | GET /my answers exactly the caller's notifications that are not read, and no more than the table holds |
| NotificationsRoutes.MyUnreadNewestFirst | backend/routes/notifications.routes.js:13 | with ids issued in creation order, the answer is strictly newest first |
| NotificationsRoutes.SubsequenceKeepsIncreasing | backend/routes/notifications.routes.js:11-13 | a subsequence of a list with increasing ids has increasing ids |
| NotificationsRoutes.SubsequenceElementsFrom | backend/routes/notifications.routes.js:11-13 | every element of a subsequence occurs in the list |
| NotificationsRoutes.MarkedRead | backend/routes/notifications.routes.js:19-26 | marking read sets is_read on the notification with that id only when it belongs to the caller; every other entry is kept; the length is kept |
| NotificationsRoutes.MarkedReadIdempotent | backend/routes/notifications.routes.js:20-24 | marking the same notification read twice equals marking it once |
| NotificationsRoutes.MarkedReadSparesOthers | backend/routes/notifications.routes.js:21 | another user's notifications are exactly as before |
| NotificationsRoutes.MarkedReadSparesOthersRec | backend/routes/notifications.routes.js:21 | the inductive step of the previous property |
| NotificationsRoutes.MarkedReadLeavesUnread | backend/routes/notifications.routes.js:20-24 | after marking, the notification is absent from the caller's unread list and every other unread one is still present |
| NotificationsRoutes.MarkRead | backend/routes/notifications.routes.js:19-26 | the handler answers 200 always and leaves the notification table as MarkedRead describes; the other tables and all four id counters are unchanged |
| AuthController.Login | backend/controllers/auth.controller.js:7-37 | an absent email gives 500; an unknown email gives 401; success carries a session for a user with that email whose password matched, with claims user id and role id, and the profile with the role name or null; with unique emails, success happens exactly when the password matches and a failed password check gives 401; a known email with no password gives 500; with both fields present every failure is 401 |
| AuthController.RequestedRole | backend/controllers/auth.controller.js:44 | an absent or zero role id becomes role 1; any other value is kept |
| AuthController.Register | backend/controllers/auth.controller.js:40-61 | 400 exactly for a known email; a new email with no name or no password gives 500; 201 happens exactly when all fields are present, the email is new and the row fits the columns; on 201, exactly one user with the given name, email, hashed password and requested role is added under a fresh id; any failure leaves the database unchanged; email uniqueness is preserved |
| TicketQueries.PersonOf | backend/controllers/tickets.controller.js:54-56 | the joined user reduces to its id and name, or to null exactly when the key matches no user |
| TicketQueries.AllTickets | backend/controllers/tickets.controller.js:31-67 | role 1 sees exactly its own tickets; every other role sees every ticket; each entry carries the ticket's id, title and status, and a creator exactly when the owner exists |
| TicketQueries.AuthorName | backend/controllers/tickets.controller.js:95 | the comment author is the writer's name, or "Unknown" when no user matches |
| TicketQueries.CommentViews | backend/controllers/tickets.controller.js:93-98 | one view per comment, in order |
| TicketQueries.CommentViewsAppend | backend/controllers/tickets.controller.js:93-98 | viewing a concatenation equals concatenating the views |
| TicketQueries.CommentsOf | backend/controllers/tickets.controller.js:74 | exactly the comments of that ticket |
| TicketQueries.TicketById | backend/controllers/tickets.controller.js:70-106 | 404 exactly for a missing id; otherwise the ticket's fields, the creator exactly when that user exists, and the ticket's comments, in the comment table's order, with their authors |
| TicketQueries.DetailExposesCreatorHash | backend/controllers/tickets.controller.js:92 | the creator in the detail carries the user's password hash |
| TicketQueries.NewCommentShowsLast | backend/controllers/tickets.controller.js:93-98 | a new comment is listed in its own ticket's detail, every earlier comment stays listed, and no other ticket's detail changes; under the comment table's order it is listed last |
| TicketQueries.CommentsOfAppend | backend/controllers/tickets.controller.js:74 | the comments of a ticket after an append are the old ones plus the new one if it belongs to that ticket |
| TicketQueries.LabelGroupsDisjoint | backend/controllers/tickets.controller.js:147-161 | no status spelling is counted by two counters |
| TicketQueries.CountersBounded | backend/controllers/tickets.controller.js:145-161 | the four status counts together are at most the total |
| TicketQueries.StatsOf | backend/controllers/tickets.controller.js:176-204 | the four counters sum to at most the total |
| TicketQueries.GetStats | backend/controllers/tickets.controller.js:143-169 | the total is the table size, and the counters sum to at most it |
| TicketQueries.GetMyTickets | backend/controllers/tickets.controller.js:172-211 | the total is the number of the caller's tickets, and the counters sum to at most it |
| TicketQueries.MyTicketsAreStatsOfOwnTickets | backend/controllers/tickets.controller.js:176-204 | the caller's counters equal the global counters over the caller's part of the table |
| TicketQueries.MyTotalMatchesVisibleList | backend/controllers/tickets.controller.js:34 | an end user's total equals the length of the list GET /tickets gives them |
| TicketQueries.StatusChartData | backend/controllers/tickets.controller.js:371-386 | four values summing to at most the number of tickets |
| TicketQueries.EnumBucket | backend/controllers/tickets.controller.js:501-506 | a value has a counter exactly when it is one of the keys, and that counter's key is the value |
| TicketQueries.StatusBucket | backend/controllers/tickets.controller.js:501-506 | a ticket adds to a status counter exactly when its status is one of the four keys, and that counter's key is its status |
| TicketQueries.PriorityBucket | backend/controllers/tickets.controller.js:515-520 | a ticket adds to a priority counter exactly when its priority is one of the three keys, and that counter's key is its priority |
| TicketQueries.WeekdayIndex | backend/controllers/tickets.controller.js:574 | a getDay value 0..6 maps into 0..6: Sunday goes exactly to 6 and every other day d goes to d-1 |
| TicketQueries.WeekdayIndexInjective | backend/controllers/tickets.controller.js:572-577 | distinct days land in distinct counters |
| TicketQueries.CountByBucket | backend/controllers/tickets.controller.js:501-506 | the forEach loop leaves each counter k equal to the number of tickets in bucket k, and the counters sum to at most the number of tickets |
| TicketQueries.GetReport | backend/controllers/tickets.controller.js:491-582 | the total is the number of tickets; status and priority counter k counts the tickets with the k-th enum value, each group summing to at most the total; the open, resolved and closed figures are those counters; assigned counts the tickets with an assignee; the weekday series exists exactly for periods other than the last seven days, with counter k counting the tickets whose Monday-first weekday is k |
| TicketQueries.EnumBucketExact | backend/controllers/tickets.controller.js:494-506 | with distinct keys, a value falls into counter k exactly when it is the k-th key |
| TicketQueries.StatusCountIsValueCount | backend/controllers/tickets.controller.js:494-506 | the k-th status counter counts the tickets whose status is the k-th status |
| TicketQueries.PriorityCountIsValueCount | backend/controllers/tickets.controller.js:509-520 | the k-th priority counter counts the tickets whose priority is the k-th priority |
| TicketsController.CreateTicket | backend/controllers/tickets.controller.js:10-28 | 201 exactly when title and description are present and the row fits the columns; the new ticket has a fresh id, the caller as owner, status "Open", the given priority or "Medium", and no assignee; nothing else changes; a failure changes nothing |
| TicketsController.UpdateTicketStatus | backend/controllers/tickets.controller.js:214-242 | role 1 gets 403 and a missing id 404, with no change; for staff or admin on an existing ticket any other failure is 500; on success only that ticket's status changes, and exactly one notification for its owner is appended |
| TicketsController.Assigned | backend/controllers/tickets.controller.js:259-274 | the assignee is set and the time stamped; "Open" becomes "In Progress"; every other status is kept; the result is never "Open"; the other fields are kept; a conforming row stays conforming |
| TicketsController.AssignedIdempotent | backend/controllers/tickets.controller.js:271-273 | assigning the same person again changes nothing more |
| TicketsController.AssignTicket | backend/controllers/tickets.controller.js:246-282 | a missing ticket gives 404; an admin succeeds exactly when the named user exists (else 404); staff succeed exactly when naming themselves (else 403); other roles get 403; a failure changes nothing; success rewrites only that ticket as Assigned describes |
| TicketsController.AssignRoute | backend/routes/tickets.routes.js:52 | behind the role gate, no user gives 401 and an end user gets 403 whether or not the ticket exists; success happens only for staff and admins |
| TicketsController.UpdateStatusRoute | backend/routes/tickets.routes.js:49 | behind the role gate, only staff and admins can change a status |
| TicketsController.Edited | backend/controllers/tickets.controller.js:294-301 | title, description and priority are overwritten; the status changes only for roles 2 and 3, and for them it becomes the given status; the other fields are kept |
| TicketsController.UpdateTicket | backend/controllers/tickets.controller.js:285-309 | a missing id gives 404; 200 exactly when title and description are present and the edited row fits the columns, and 500 otherwise on an existing ticket; success rewrites only that ticket; a failure changes nothing |
| TicketsController.DeleteTicket | backend/controllers/tickets.controller.js:312-342 | a missing id gives 404; 403 unless the caller owns the ticket or is an admin; success removes exactly that ticket and keeps every other table |
| TicketsController.PostComment | backend/controllers/tickets.controller.js:109-140 | a missing ticket gives 404; 201 exactly when the ticket exists and the text is present; a missing text on an existing ticket gives 500; the comment is appended with a fresh id and the caller as author; the answer is its view with the author's name; a failure changes nothing |
| AppRoutes.RoleFor | frontend/src/App.jsx:30-48 | role 3 gives "admin"; 2 gives "staff"; any other decoded id gives "user"; a missing token or a decode failure gives "" |
| AppRoutes.AppState.constructor | frontend/src/App.jsx:26-27 | the token is the stored one and the role starts empty |
| AppRoutes.AppState.UpdateTokenAndRole | frontend/src/App.jsx:30-48 | the state holds the re-read token and the role RoleFor derives from it |
| AppRoutes.RootTarget | frontend/src/App.jsx:77-89 | no token gives /login; admin or staff gives /DashboardAdmin; any other role gives /DashboardUser |
| AppRoutes.Resolve | frontend/src/App.jsx:77-148 | "/" redirects by RootTarget; /login and /register are public; a declared protected route renders its page with a token and redirects to /login without one; any other path redirects to "/" |
| AppRoutes.StaffAreaRoutes | frontend/src/App.jsx:94-108 | /AssignAdmin, /ReportAdmin and /DashboardAdmin render exactly for admin or staff, and otherwise redirect to "/" |
| AppRoutes.AdminOnlyRoutes | frontend/src/App.jsx:109-138 | /ManagesAdmin, /SystemSetting and /ProfileAdmin render exactly for admin |
| AppRoutes.UserOnlyRoutes | frontend/src/App.jsx:116-135 | /SubNewTicket, /MyTicket, /DashboardUser and /ProfileUser render exactly for end users |
| AppRoutes.TicketRoutes | frontend/src/App.jsx:125-144 | /TicketDetail/:id renders for all three roles; /EditTicket/edit/:id renders only for staff |
| AppRoutes.UndecodableTokenLoops | frontend/src/App.jsx:41-44 | with a token that does not decode, "/" redirects to /DashboardUser and /DashboardUser back to "/" |
| AppRoutes.SignedOutSeesOnlyPublicPages | frontend/src/Components/ProtectedRoute.jsx:4-8 | without a token no protected route is declared, only /login and /register render, and "/" leads to /login |
| Navbar.NameOr | frontend/src/Components/Navbar.jsx:60 | an absent or empty name gives the fallback; otherwise the name |
| Navbar.IdentityFor | frontend/src/Components/Navbar.jsx:53-80 | role 3 gives Administrator/"A"; 2 gives Support Staff/"S"; anything else gives End User/"U", with the payload's name or each role's default; a decode error gives User/End User/"U"; the label is always one of the three |
| Navbar.PayloadOf | backend/controllers/auth.controller.js:17-18 | a sign-in token's payload carries the role id and no name |
| Navbar.SignInTokenShowsDefaultName | frontend/src/Components/Navbar.jsx:59-71 | after sign-in the header shows the role's default name, since the token has no name claim |
| Navbar.LabelAgreesWithRouteRole | frontend/src/Components/Navbar.jsx:59-71 | for a decodable token, the header label matches the shell's role: admin to Administrator, staff to Support Staff, otherwise End User |
| Navbar.UndecodableTokenLabelledEndUser | frontend/src/Components/Navbar.jsx:72-78 | a token that does not decode is labelled End User, while the shell gives it the empty role |
| Navbar.AccessibleLinks | frontend/src/Components/Navbar.jsx:129-140 | exactly the links the label may see (an adminOnly link for Administrator, userOnly for End User, staffOnly for Support Staff, an unflagged link always), in declared order |
| Navbar.UnknownLabelSeesUnflaggedOnly | frontend/src/Components/Navbar.jsx:129-140 | under any other label only unflagged links remain |
| Navbar.EveryLinkFlagged | frontend/src/Components/Navbar.jsx:111-126 | every declared sidebar link carries an audience flag |
| Navbar.InitialLabelSeesNoLinks | frontend/src/Components/Navbar.jsx:30 | under the initial label "User" the sidebar is empty |
| Navbar.FlaggedLinksHidden | frontend/src/Components/Navbar.jsx:129-140 | flagged links under a label none of them names are all hidden |
| Navbar.SidebarLinksAreRoutable | frontend/src/Components/Navbar.jsx:111-140 | with a decodable token, every link shown leads to a page the route table renders for the shell's role |
| Navbar.LinkRoutable | frontend/src/Components/Navbar.jsx:111-126 | one link visible under a role's label is routable for that role |
| Navbar.StaffLinkRoutable | frontend/src/Components/Navbar.jsx:112-121 | the dashboard, assignment and report links lead to rendered pages |
| Navbar.UserLinkRoutable | frontend/src/Components/Navbar.jsx:114-124 | the end-user links lead to rendered pages |
| Navbar.AdminLinkRoutable | frontend/src/Components/Navbar.jsx:115-123 | the admin-only links lead to rendered pages |
| Navbar.UndecodableTokenShowsDeadLink | frontend/src/Components/Navbar.jsx:72-78 | with a token that does not decode, the end-user dashboard link is shown but its path redirects to "/" |
| Navbar.EndUserSeesUserDashboard | frontend/src/Components/Navbar.jsx:114 | the End User label sees the end-user dashboard link |
| Navbar.HideNavbar | frontend/src/Components/Navbar.jsx:104-108 | the shell is hidden exactly on /login and /register |
| Navbar.HiddenExactlyOnPublicPages | frontend/src/Components/Navbar.jsx:104 | signed out, the shell is hidden exactly where the route table renders a page |
| Navbar.WithoutId | frontend/src/Components/Navbar.jsx:98 | exactly the notifications with a different id remain, in order |
| Navbar.NavbarState.constructor | frontend/src/Components/Navbar.jsx:24-31 | identity User/User/"U" and an empty list |
| Navbar.NavbarState.OnToken | frontend/src/Components/Navbar.jsx:53-80 | a present token sets the identity to IdentityFor of its decoding; without one the identity is kept; the list is kept |
| Navbar.NavbarState.OnNotificationsFetched | frontend/src/Components/Navbar.jsx:36-45 | a successful fetch replaces the list and a failed one keeps it |
| Navbar.NavbarState.HandleRead | frontend/src/Components/Navbar.jsx:91-102 | after a successful read call exactly the entries with that id leave; otherwise nothing changes |
| Navbar.ClientRemovalMatchesServer | frontend/src/Components/Navbar.jsx:98 | removing the id on the client gives the list the server would answer after marking it read |
| NotificationsRoutes.FilterOfReverse | backend/routes/notifications.routes.js:12-13 | filtering the reversed list equals reversing the filtered list |
| Navbar.UnreadAfterMarking | backend/routes/notifications.routes.js:12-22 | the caller's unread list after marking equals the one before with that id removed |
| TicketRows.DisplayId | frontend/src/pages/AssignAdmin.jsx:90 | the display id starts with "TKT-" followed by the digits |
| TicketRows.OrElse | frontend/src/pages/DashboardAdmin.jsx:69 | an empty string falls back; any other is kept |
| TicketRows.CreatorName | frontend/src/pages/DashboardAdmin.jsx:68 | the creator's non-empty name, otherwise the page's fallback |
| TicketRows.Format | frontend/src/pages/DashboardAdmin.jsx:60-71 | the row keeps id, title, priority, status and assignment; its display id is TKT- and the id; the update time falls back to the creation time |
| TicketRows.FormatAll | frontend/src/pages/DashboardUser.jsx:51-61 | one formatted row per list entry, in order |
| TicketRows.SortKeyIsId | frontend/src/pages/DashboardAdmin.jsx:108-112 | reading the number back out of a display id gives the ticket id |
| TicketRows.SortedRows | frontend/src/pages/DashboardAdmin.jsx:108-112 | the sorted rows are a permutation of the input, ascending by the display-id number |
| TicketRows.SortedRowsById | frontend/src/pages/DashboardUser.jsx:86-90 | for issued ids, the order is ascending ticket id |
| TicketRows.ClearedFiltersKeepEverything | frontend/src/pages/DashboardAdmin.jsx:97-103 | an empty search and "All" selects keep every row |
| TicketRows.SearchFindsOwnDisplayId | frontend/src/pages/DashboardAdmin.jsx:97-99 | searching a row's own display id finds it |
| TicketRows.StatusStats | frontend/src/pages/MyTicket.jsx:80-85 | each counter is the number of rows with exactly that status, and the four sum to at most the number of rows |
| TicketRows.WithoutTicket | frontend/src/pages/DashboardUser.jsx:103 | exactly the rows with another id remain, in order |
| TicketRows.WithoutTicketShrinks | frontend/src/pages/DashboardUser.jsx:103 | the list shrinks exactly when some row has the deleted id |
| TicketRows.WithoutTicketIdempotent | frontend/src/pages/DashboardUser.jsx:103 | deleting twice equals deleting once |
| DashboardAdmin.FormatTicket | frontend/src/pages/DashboardAdmin.jsx:60-71 | a row keeping the ticket's id, title, status and priority, with the creator's name or "You" and no assignee |
| DashboardAdmin.PageStats | frontend/src/pages/DashboardAdmin.jsx:74-79 | each counter is the number of rows with exactly that status, the same counting as "My Ticket", the four summing to at most the number of rows |
| DashboardAdmin.FilteredTickets | frontend/src/pages/DashboardAdmin.jsx:95-113 | a row is shown exactly when it passes search, status and priority; the table is a permutation of the kept rows, ascending by ticket number |
| DashboardAdmin.UnassignedChoiceEmptiesTable | frontend/src/pages/DashboardAdmin.jsx:100-101 | with stored statuses, the "Unassigned" status option empties the table |
| DashboardAdmin.AllChoiceWidens | frontend/src/pages/DashboardAdmin.jsx:100-103 | setting status or priority to "All" keeps every row kept before |
| DashboardUser.FormatTicket | frontend/src/pages/DashboardUser.jsx:51-61 | a row keeping the ticket's id, title and status, with neither creator nor assignee |
| DashboardUser.FilteredTickets | frontend/src/pages/DashboardUser.jsx:75-91 | a row is shown exactly when it passes search and status; the table is a permutation of the kept rows, ascending by ticket number |
| DashboardUser.Page.constructor | frontend/src/pages/DashboardUser.jsx:45-72 | the page starts with no rows |
| DashboardUser.Page.Load | frontend/src/pages/DashboardUser.jsx:45-72 | a successful fetch replaces the rows by the formatted list; a failed one keeps them |
| DashboardUser.Page.HandleDelete | frontend/src/pages/DashboardUser.jsx:94-112 | a declined confirmation or an unsuccessful result keeps the rows; otherwise exactly the rows with that id leave, in order |
| DashboardUser.DeletedTicketLeavesTable | frontend/src/pages/DashboardUser.jsx:103 | after a delete the table never shows the deleted ticket, whatever the filters |
| MyTicket.FormatTicket | frontend/src/pages/MyTicket.jsx:66-77 | a row keeping the ticket's id, title, status and priority, with the creator's name or "You" and no assignee |
| MyTicket.FilteredTickets | frontend/src/pages/MyTicket.jsx:101-112 | a row is shown exactly when it passes search, status and priority, in load order |
| MyTicket.FindById | frontend/src/pages/MyTicket.jsx:126 | a row with that id that no earlier row shares, i.e. the first one; none exactly when no row has the id |
| MyTicket.CounterFor | frontend/src/pages/MyTicket.jsx:130-135 | Open, In Progress and Resolved pick their counter; any other status, null included, picks "closed" |
| MyTicket.Lowered | frontend/src/pages/MyTicket.jsx:133 | one less, never below zero |
| MyTicket.Decremented | frontend/src/pages/MyTicket.jsx:128-136 | exactly the chosen counter is lowered; the others stay |
| MyTicket.Page.constructor | frontend/src/pages/MyTicket.jsx:60-98 | no rows and zero counters |
| MyTicket.Page.Load | frontend/src/pages/MyTicket.jsx:60-98 | a successful fetch replaces the rows and recounts the statuses; a failed one keeps both |
| MyTicket.Page.HandleDelete | frontend/src/pages/MyTicket.jsx:115-146 | a declined confirmation or an unsuccessful result changes nothing; otherwise the rows with that id leave and the counter of the first such row is lowered |
| MyTicket.RemovedRowsCount | frontend/src/pages/MyTicket.jsx:124-126 | with unique ids, a delete removes at most the found row from any count |
| MyTicket.CountAfterDelete | frontend/src/pages/MyTicket.jsx:124-136 | each status count after a delete is the old count less the found row, if it had that status |
| MyTicket.DeleteKeepsStatsInSync | frontend/src/pages/MyTicket.jsx:124-136 | with unique ids and stored statuses, lowering a counter equals recounting after the delete |
| MyTicket.NullStatusDeleteDrifts | frontend/src/pages/MyTicket.jsx:130-135 | deleting a row whose status is null lowers "closed", so the counters differ from a recount |
| AssignAdmin.FindStaff | frontend/src/pages/AssignAdmin.jsx:84 | a staff entry whose id or user_id is the key and before which no entry matches, i.e. the first one; none exactly when no entry matches |
| AssignAdmin.AssigneeName | frontend/src/pages/AssignAdmin.jsx:83-86 | null exactly when unassigned; "Unknown" when no staff entry matches; when the first matching entry exists, its name, or "Unknown" if that name is empty |
| AssignAdmin.FormatTicket | frontend/src/pages/AssignAdmin.jsx:81-102 | a row with the looked-up assignee and creator's name or "Unknown"; the assignee is null exactly when unassigned and is otherwise the assignee name looked up |
| AssignAdmin.FilteredTickets | frontend/src/pages/AssignAdmin.jsx:144-167 | a row is shown exactly when it passes search, the unassigned switch, priority and status; the table is a permutation of the kept rows, ascending by ticket number |
| AssignAdmin.UnassignedOnlyShowsUnassigned | frontend/src/pages/AssignAdmin.jsx:150 | with the switch on, every shown row is unassigned |
| AssignAdmin.Stats | frontend/src/pages/AssignAdmin.jsx:170-182 | total is the number of rows; unassigned and assigned count complementary rows and add up to the total; critical unassigned is the number of unassigned rows of priority "High", at most unassigned |
| ManagesAdmin.FilteredUsers | frontend/src/pages/ManagesAdmin.jsx:86-95 | a user is shown exactly when the name or email contains the term, ignoring case, and the role choice is "All" or the user's role; order is kept |
| ManagesAdmin.ClearedFiltersShowEveryone | frontend/src/pages/ManagesAdmin.jsx:86-95 | an empty search with "All" shows the whole list |
| ManagesAdmin.WithField | frontend/src/pages/ManagesAdmin.jsx:105-108 | the field named by the input takes the value; every other field is kept |
| ManagesAdmin.Added | frontend/src/pages/ManagesAdmin.jsx:121 | the new entry has the form's name, email and role, status "Active", the time-based id and date, and the typed passwords |
| ManagesAdmin.Page.constructor | frontend/src/pages/ManagesAdmin.jsx:49-66 | no users, dialog closed, empty form with role "End User" |
| ManagesAdmin.Page.Load | frontend/src/pages/ManagesAdmin.jsx:69-83 | a successful fetch replaces the users; a failed one keeps them |
| ManagesAdmin.Page.OpenModal | frontend/src/pages/ManagesAdmin.jsx:99-103 | the form is reset to empty fields with role "End User" and the dialog opens |
| ManagesAdmin.Page.CloseModal | frontend/src/pages/ManagesAdmin.jsx:98 | the dialog closes; users and form are kept |
| ManagesAdmin.Page.HandleFormChange | frontend/src/pages/ManagesAdmin.jsx:105-108 | the form changes as WithField describes; users and dialog are kept |
| ManagesAdmin.Page.HandleAddNewUser | frontend/src/pages/ManagesAdmin.jsx:110-124 | differing passwords add nothing and leave the dialog open; otherwise exactly one entry built from the form is appended and the dialog closes |
| ManagesAdmin.AddedUserShowsLast | frontend/src/pages/ManagesAdmin.jsx:121 | with cleared filters, an added user appears last and the earlier rows are kept |
| SystemSetting.Changed | frontend/src/pages/SystemSetting.jsx:40-46 | the named input takes the box's state for a checkbox and the text otherwise; every other entry is kept |
| SystemSetting.ChangesCommute | frontend/src/pages/SystemSetting.jsx:40-46 | changes to two different inputs commute |
| SystemSetting.LastChangeWins | frontend/src/pages/SystemSetting.jsx:40-46 | a second change to one input overrides the first |
| SystemSetting.SettingsForm.General | frontend/src/pages/SystemSetting.jsx:33-38 | the general form starts with its four defaults |
| SystemSetting.SettingsForm.Security | frontend/src/pages/SystemSetting.jsx:273-282 | the security form starts with its eight defaults |
| SystemSetting.SettingsForm.HandleChange | frontend/src/pages/SystemSetting.jsx:284-290 | the record changes as Changed describes |
| SystemSetting.NotificationSwitches.constructor | frontend/src/pages/SystemSetting.jsx:112-120 | the seven switches start with their defaults |
| SystemSetting.NotificationSwitches.HandleChange | frontend/src/pages/SystemSetting.jsx:122-125 | the named switch takes the box's state; the others keep theirs |
| SystemSetting.Apply | frontend/src/pages/SystemSetting.jsx:181 | the edited field changes; id, tag and the other fields are kept |
| SystemSetting.Edited | frontend/src/pages/SystemSetting.jsx:179-183 | rows with that id are edited; every other row and every id is kept |
| SystemSetting.Deleted | frontend/src/pages/SystemSetting.jsx:187 | exactly the rows with another id remain, in order |
| SystemSetting.MaxId | frontend/src/pages/SystemSetting.jsx:192 | the largest id, carried by some row |
| SystemSetting.NextId | frontend/src/pages/SystemSetting.jsx:192 | greater than every id; 1 for an empty table; otherwise one more than some row's id |
| SystemSetting.NewLevel | frontend/src/pages/SystemSetting.jsx:193 | "New Priority", "72 hours", disabled, tag "New", with the given id |
| SystemSetting.EditKeepsIdsDistinct | frontend/src/pages/SystemSetting.jsx:179-183 | editing keeps ids distinct |
| SystemSetting.FilterKeepsIdsDistinct | frontend/src/pages/SystemSetting.jsx:187 | removing rows keeps ids distinct |
| SystemSetting.DeleteKeepsIdsDistinct | frontend/src/pages/SystemSetting.jsx:185-189 | deleting keeps ids distinct and removes the deleted id |
| SystemSetting.AddKeepsIdsDistinct | frontend/src/pages/SystemSetting.jsx:191-194 | the added row's id is new, so ids stay distinct |
| SystemSetting.DeletedIdReused | frontend/src/pages/SystemSetting.jsx:185-194 | after deleting level 3 from the initial table, the next added level gets id 3 again |
| SystemSetting.PriorityTable.constructor | frontend/src/pages/SystemSetting.jsx:173-177 | the table starts with Low, Medium and High under ids 1, 2, 3, with distinct ids |
| SystemSetting.PriorityTable.HandleChange | frontend/src/pages/SystemSetting.jsx:179-183 | the table changes as Edited describes and ids stay distinct |
| SystemSetting.PriorityTable.HandleDelete | frontend/src/pages/SystemSetting.jsx:185-189 | a declined confirmation keeps the table; an accepted one removes the rows with that id; ids stay distinct |
| SystemSetting.PriorityTable.HandleAddPriority | frontend/src/pages/SystemSetting.jsx:191-194 | exactly one new level under NextId is appended; the existing rows are kept; ids stay distinct |

## Left out

- Password hashing and comparison (bcrypt) and token signing and verification (JWT) are parameters (`hash`, `matches`, `decode`). The caller the authentication middleware attaches is an `AuthUser` value. backend/middlewares/auth.middleware.js is not part of this model.
- The clock (`new Date()`, `Date.now()`) is a parameter. Dates are opaque text.
- Every fetch or API call on the frontend is an `Option` parameter: None is the failed call. Polling (the 15-second notification refresh), window events, alerts, console output, loading and error flags, and rendering are left out.
- TicketQueries.TicketById: the ticket's comments are given in the comment table's creation order. The `include` of `Comment` has no `order`, so the order the database returns them in is not modelled.
- TicketQueries.NewCommentShowsLast: "listed last" holds under the comment table's creation order, which the unordered `include` does not promise. The clauses that the new comment is listed and every earlier comment stays listed hold without it.
- TicketQueries.AllTickets: answers a map keyed by id. The list's `created_at DESC` order, the `due_date` field and the MySQL coercion of keys are not modelled.
- TicketQueries.GetReport: takes the tickets the period query returned as input. The date window, the per-date series of the last seven days (None in the model), the previous-period count and the percentage strings (floating point) are left out.
- exportTickets (CSV/XLSX libraries), getMonthlyStats and getTicketsByPriority (database grouping and ordering) are left out.
- TicketsController.CreateTicket: the body's `due_date` is not stored, because models/ticket.js declares no such column and Sequelize drops unknown attributes.
- TicketsController.AssignTicket: on the admin path the model parses the body's `assigned_to` with JavaScript `parseInt`, then looks that number up and stores it. The source instead hands the body value to `findByPk` and stores it as sent, leaving the conversion to the database.
- TicketsController.UpdateTicketStatus: an absent `status` is modelled as writing null. Sequelize's treatment of `undefined` is not modelled.
- TicketsController.DeleteTicket: what the database does with the deleted ticket's comments (foreign-key rules) is not modelled; the comment table is kept.
- The save of a new status and the insert of its notification are one step. Their non-atomicity under concurrent requests is not modelled.
- Integer columns are unbounded integers. The 32-bit width of `INTEGER` is not modelled.
- AuthController.Login: the lookup takes any user with the email, since the query has no order. Claims are the token's contents, and expiry is not modelled.
- AuthController.RequestedRole: only numeric role ids are modelled. JavaScript truthiness of a string or other non-number `role_id` is not.
- Common.ParseInt: models `parseInt` on decimal text after ASCII whitespace, with an optional sign. Hexadecimal prefixes and Unicode whitespace are left out.
- Common.Lower: case folding is ASCII only. `toLowerCase` on other letters is not modelled.
- TicketRows.SortedRows: states that the result is sorted and a permutation. The specific order among equal keys that the browser's sort gives is not stated.
- TicketRows.Format: the row id is the list's `id`. The `ticket.id || ticket.ticket_id` fallback for a falsy id is not modelled, because the list always carries `id`.
- AppRoutes.Resolve: paths are compared exactly. React Router's case-insensitive matching and trailing slashes are not modelled.
- The Navbar's logout, dropdown and mobile-menu state are left out, along with the socket.io presence map in backend/app.js.
- ManagesAdmin.Page.Load: the page's `fetchUsers` is a local mock. The model takes its answer as a parameter.
- AssignAdmin: the staff list is a parameter. The stale `setStaffList` state update is outside the model.
- SystemSetting: the tab switching and the `handleSubmit` handlers (console output and alerts only) are left out.
- The thin form pages and view components (Login, Register, profiles, EditTicket, SubNewTicket, CreateTicket, CommentBox, TicketDetail, TicketCard, ReportAdmin, ProtectedRoute apart from its token check), frontend/src/services/api.js, users.controller.js, the upload middleware, server and ORM setup, and backend/test_post_comment.js are not part of this model.
