# RBUC admin console — a Dafny model

This project models the core of a role-based user-management console. The console has two parts.

The server is a JSON REST store. It has:

- an event stream (`GET /api/events`) that pushes a frame to all connected browsers for every request the store's router answers, reads included;
- a bulk-delete endpoint (`DELETE /bulk/:resource`);
- a request validator for the three collections (users, roles and permissions) in `server/middleware.js`, which `server.js` does not mount.

The browser client has:

- an in-memory permission catalogue that keeps roles consistent with the permissions that exist;
- a push-message subscription registry;
- a route guard;
- a searchable, selectable data table;
- the user, role and permission dialogs;
- the dashboard and context counters;
- the list and selection state of the three management pages.

Every handler is a pure function on immutable state. The outcomes of I/O come in as parameters:

- what an API call returned, or that it threw;
- the clock reading;
- whether the store failed, and at which removal.

Modules, one per component:

- `EventServer` (server.dfy): the event-stream server and bulk delete. It also covers the Server-Sent Events frame format of the WHATWG HTML Living Standard, section 9.2.
- `RequestValidation` (middleware.dfy): the POST validator, as it would answer if installed.
- `PermissionCatalogue` (catalogue.dfy): the mock permission service.
- `Subscriptions` (subscriptions.dfy): the push-message registry and the reconnect rule.
- `RouteGuard` (route_guard.dfy): the protected-route decision.
- `DataTable` (data_table.dfy): the search filter, the checkboxes drawn when the table is selectable, and their ticks.
- `FormErrors`, `UserForm`, `RoleForm`, `PermissionForm`: the dialogs.
- `AppStats`, `Dashboard`: the counters and the charts; `ObjectCounts` (object_counts.dfy): the dashboard's counting into a plain object, as JavaScript evaluates it.
- `ListPage`, `UsersPage`, `RolesPage`, `PermissionsPage`: the management pages.
- Shared modules:
  - `Seqs`: sequence helpers;
  - `Text`: JavaScript `trim`, `\s`, `toLowerCase`, `includes` and the two regular expressions;
  - `Json`: JSON values with JavaScript truthiness, `String()` and `Number()`;
  - `Entities`: the three records.

Some behaviours of the source are modelled as written and stated as lemmas:

- A routed `PATCH` is announced as `DELETED`, and so is every routed `GET`, since reads end in the same render.
- The permission dialog accepts names that the validator in `server/middleware.js`, which `server.js` does not mount, refuses.
- The permissions page hands its selection to the table under a property name the table never reads, and does not make the table selectable. The table draws no checkbox there, so the page's selection handlers never run and its bulk-delete button never shows.
- A single permission delete leaves its id selected.

## Model

| member | source | states |
|---|---|---|
| EventServer.Subscribe | server.js:20-29 | A new subscriber's history gains exactly one frame: the snapshot of the store at that moment. The subscriber then joins the client set. The store and every other history are unchanged. |
| EventServer.Close | server.js:32-35 | The client leaves the set and nothing else changes. Closing a client that is not registered is a no-op. |
| EventServer.KeepAliveTick | server.js:24-26 | A registered client gets one keepalive frame. A closed client gets nothing. |
| EventServer.Broadcast | server.js:45-51 | Each registered client gets exactly one copy of the frame. Histories of unregistered handles are unchanged. |
| EventServer.KindOf | server.js:47 | CREATED iff the method is POST. UPDATED iff it is PUT. DELETED for every other method. |
| EventServer.PatchIsAnnouncedAsDeleted | server.js:47 | A PATCH that reaches the router is broadcast as a deletion. |
| EventServer.GetIsAnnouncedAsDeleted | server.js:39-54 | A GET answered by the router is broadcast as a deletion too. |
| EventServer.Render | server.js:39-54 | For any routed request, read or write, the HTTP body is the store's `data` with the status the router set (201 after a create, 404 for an unknown id). Each registered client gets one change frame carrying that same data and path. The store becomes the one the router left behind, and the client set is unchanged. |
| EventServer.RemoveEachIsFilter | server.js:73-75 | One removal pass per id, in order, equals a single order-preserving filter by membership. |
| EventServer.RemoveEachSpec | server.js:73-78 | After the removals no targeted record remains. Every untargeted record stays, in its original order. |
| EventServer.BulkDelete | server.js:57-95 | A non-array `ids` gives 400 with nothing touched or sent. On success: `deletedIds` is `Number` of each requested id, same length and order; only the resource's collection changes; each client gets one `BULK_DELETED` frame with the post-delete collection. A store failure gives 500, sends nothing and keeps the earlier removals. |
| EventServer.RemoveEachTwice | server.js:73-75 | Removing the same ids a second time removes nothing. |
| EventServer.BulkDeleteIdempotent | server.js:73-90 | A repeated successful bulk delete leaves the store unchanged and answers the same ids. It still sends every client one more `BULK_DELETED` frame. |
| EventServer.StepDelivery | server.js:45-88 | A client that stays registered gets exactly the step's broadcast event, plus possibly its own keepalive. Earlier frames are unchanged. |
| EventServer.Delivery | server.js:45-88 | A client registered throughout a run receives exactly the run's broadcast events, in commit order. |
| EventServer.SameOrderForAllClients | server.js:45-88 | Any two clients registered throughout see the same events in the same order. |
| EventServer.SubscriberSeesSnapshotThenLaterEvents | server.js:20-29 | After any run of earlier operations, a new subscriber's first frame is the store as that run left it, routed writes and bulk deletes included. After it come exactly the events committed since. |
| EventServer.RoutedWriteReachesSnapshot | server.js:20-21 | A subscriber connecting after a routed request gets the store the router left behind as its snapshot. |
| EventServer.ClosedClientReceivesNothing | server.js:32-35 | A closed client's history does not grow until it reconnects. |
| EventServer.WireRoundTrip | server.js:21-25 | An event frame `data: <payload>` followed by a blank line reads back as the payload under the event-stream line rules (a line ends at CR, LF or CRLF), given an encoder that writes neither CR nor LF. The keepalive reads back as a comment. |
| Json.StringToNumberRoundTrip | server.js:70 | `Number` of the decimal string of an integer id is that integer. |
| Json.SingletonArrayNumber | server.js:70 | `Number` of a one-element array holding a string is `Number` of that string. |
| Json.LongArrayIsNotInteger | server.js:70 | An array of two or more ids coerces to a non-integer, so it matches no record. |
| RequestValidation.CompleteUser | server/middleware.js:12-13 | An accepted user body keeps every field. It gets `createdAt` = now. `status` is kept when truthy and is "Active" otherwise. |
| RequestValidation.Validate | server/middleware.js:1-52 | Non-POST requests and other paths pass unchanged. Users are rejected iff name, email or role is falsy. Roles are rejected iff name or permissions is falsy. Permissions pass iff name and description are truthy, the name is in `[a-z_]+`, and no stored permission has that name. The permission errors come in that precedence, each 400 with its message. |
| RequestValidation.EmptyPermissionListIsAccepted | server/middleware.js:16-23 | A role with an empty permission array passes, because `[]` is truthy. |
| RequestValidation.UserStatusDefault | server/middleware.js:12 | A valid user keeps a truthy status and gets "Active" otherwise. |
| RequestValidation.PermissionNameExamples | server/middleware.js:36-40 | `users_read` matches the naming rule. `Users`, `a-b` and the empty name do not. |
| PermissionCatalogue.PruneRole | src/services/mockData.js:81-83 | A role keeps its id, name and description. Its list becomes the order-preserving sub-sequence of exactly the names that still exist. |
| PermissionCatalogue.Prune | src/services/mockData.js:79-85 | After pruning, every role names only existing permissions. No role gains a name. |
| PermissionCatalogue.PruneConsistentIsIdentity | src/services/mockData.js:79-85 | Pruning a consistent catalogue changes nothing. |
| PermissionCatalogue.FindIndex | src/services/mockData.js:55 | Returns the first position with the id. It is absent iff no permission carries the id. |
| PermissionCatalogue.AddPermission | src/services/mockData.js:44-51 | Appends exactly one permission: the given fields with id = the clock reading. Earlier entries are unchanged. The roles are the old roles pruned against the new list, so ids, names and descriptions are kept, and a consistent catalogue keeps its roles exactly. The result is consistent. |
| PermissionCatalogue.Merge | src/services/mockData.js:57-61 | The merged record keeps the original id, whatever the patch carries. |
| PermissionCatalogue.UpdatePermission | src/services/mockData.js:54-67 | An unknown id returns null and changes nothing. Otherwise the first match is overwritten by the patch with its id kept, the roles are the old roles pruned against the new list, and the result is consistent. |
| PermissionCatalogue.DeletePermission | src/services/mockData.js:69-77 | Returns true iff some permission has the id. If so, exactly the first such permission is removed, the roles are the old roles pruned against the new list, and the result is consistent. Otherwise nothing changes. |
| PermissionCatalogue.DeletedNameLeavesEveryRole | src/services/mockData.js:69-85 | Deleting the only permission with a name removes that name from every role. |
| PermissionCatalogue.EditsPreserveConsistency | src/services/mockData.js:44-85 | Every run of adds, updates and deletes from a consistent catalogue stays consistent. |
| PermissionCatalogue.EditShrinksRoles | src/services/mockData.js:80-84 | One edit keeps every role's id. It leaves each role's names as an order-preserving sub-sequence of the old ones. |
| PermissionCatalogue.EditsOnlyRemoveRoleNames | src/services/mockData.js:80-84 | Over any run of edits, role names only shrink, in order. |
| PermissionCatalogue.AvailableRoles | src/services/mockData.js:87 | The role names, same length and order as the roles. |
| PermissionCatalogue.AvailablePermissions | src/services/mockData.js:89-92 | Name and description of each permission, same length and order. |
| PermissionCatalogue.InitialIsConsistent | src/services/mockData.js:18-40 | The shipped roles name only shipped permissions. |
| Subscriptions.Subscribe | src/services/websocket.js:20-24 | Creates the endpoint's set if absent and adds the callback. Other endpoints are unchanged. Re-adding a present callback is a no-op, and sets stay duplicate-free. |
| Subscriptions.Unsubscribe | src/services/websocket.js:25 | Removes exactly that callback from that endpoint and keeps the order of the rest. Other endpoints are unchanged. |
| Subscriptions.UnsubscribeTwice | src/services/websocket.js:25 | Calling the unsubscribe closure again is a no-op. |
| Subscriptions.SubscribeTwice | src/services/websocket.js:20-24 | Subscribing the same callback twice stores it once. |
| Subscriptions.SubscribeThenUnsubscribe | src/services/websocket.js:20-25 | Subscribing a new callback and unsubscribing it restores the registry. |
| Subscriptions.Dispatch | src/services/websocket.js:28-33 | Calls each callback of the message's endpoint with the message, in registration order. A message for an endpoint with no set calls nothing. |
| Subscriptions.NotifyThrowing | src/services/websocket.js:28-33 | When the callback at a position throws, the calls made are the dispatch up to and including it, and the exception escapes. Without a throw, or past the end, every callback is called and nothing escapes. |
| Subscriptions.ThrowSkipsLaterSubscribers | src/services/websocket.js:32 | In a valid registry the throwing subscriber is called, and no subscriber registered after it is called. |
| Subscriptions.DispatchExactlyOnce | src/services/websocket.js:28-33 | In a valid registry each subscriber of the endpoint is called exactly once, and nobody else is called. |
| Subscriptions.OnSocket | src/services/websocket.js:7-18 | A close schedules one reconnect 1000 ms later. A firing timer opens a connection. The subscriber map never changes. |
| Subscriptions.SubscriptionsSurviveReconnects | src/services/websocket.js:7-18 | Any run of connects, closes and reconnects leaves the subscriptions as they were. |
| Subscriptions.EveryCloseSchedulesAReconnect | src/services/websocket.js:15-17 | Each close adds one pending reconnect with the same fixed delay. There is no cap and no back-off. |
| RouteGuard.Guard | src/components/ProtectedRoute.js:4-27 | Anonymous visitors go to /login, remembering the pathname. Users missing a required permission go to /dashboard, as do signed-in users on /login. Renders iff signed in, authorised and not on /login. |
| RouteGuard.NoRequirementSkipsTheCheck | src/components/ProtectedRoute.js:4-12 | With no required permissions, any signed-in user renders, whatever their permissions. |
| RouteGuard.UndefinedPermissionsFailEveryRequirement | src/components/ProtectedRoute.js:13-15 | A user with an undefined permission list fails every non-empty requirement. |
| RouteGuard.MonotoneInPermissions | src/components/ProtectedRoute.js:12-20 | Granting more permissions, or requiring fewer, never turns a render into a redirect. |
| DataTable.Visible | src/components/common/DataTable.js:25-31 | With search off the rows are the data. With search on, the rows are an order-preserving sub-sequence that keeps a row iff some field's lower-cased string contains the lower-cased term. |
| DataTable.FieldMatchesIgnoresTermCase | src/components/common/DataTable.js:28 | Lower-casing the term first changes no field match. |
| DataTable.VisibleIgnoresTermCase | src/components/common/DataTable.js:25-31 | The filtered rows do not depend on the letter case of the term. |
| DataTable.EmptyTermKeepsRowsWithFields | src/components/common/DataTable.js:26-29 | With an empty term a row is shown iff it has at least one field. |
| DataTable.Checkboxes | src/components/common/DataTable.js:54-91 | No checkbox is drawn unless the table is selectable. Otherwise there is a header box and one box per shown row, each ticked by the rules of the two flags. |
| DataTable.HeaderIgnoresTheFilter | src/components/common/DataTable.js:57-88 | Suppose a search hides a row and exactly the visible ids are selected. Then every visible row box is ticked but the header box is not, because it compares against the full data length. |
| Text.Trim | src/components/UserTable/UserForm.js:33 | The result is a contiguous slice of the input. Everything cut away is white space, and the result neither starts nor ends with white space. |
| Text.BlankIffAllWhiteSpace | src/components/UserTable/UserForm.js:33 | A trimmed string is empty iff the input is all white space. |
| Text.IsEmailIffPattern | src/components/UserTable/UserForm.js:35 | The left-to-right scan accepts exactly the strings the e-mail regular expression matches. |
| Text.AcceptedEmailShape | src/components/UserTable/UserForm.js:35 | An accepted address has exactly one `@`, which is not first. It has no white space, and a `.` after the `@` with text on both sides. |
| FormErrors.ClearError | src/components/UserTable/UserForm.js:58-60 | A truthy message for the edited field is blanked. Every other entry is unchanged and no key is added or dropped. |
| FormErrors.ClearErrorTwice | src/components/UserTable/UserForm.js:58-60 | Blanking an error twice is blanking it once. |
| UserForm.EmailIsNotBlank | src/components/UserTable/UserForm.js:34-36 | An address that passes the e-mail test is never blank, so the blank message can only be overwritten. |
| UserForm.Validate | src/components/UserTable/UserForm.js:31-41 | Name is reported iff blank, e-mail iff it fails the pattern, and role iff empty. Status is never reported. Every e-mail error reads "Invalid email format". |
| UserForm.Submit | src/components/UserTable/UserForm.js:44-48 | The data is submitted, unchanged, iff the form is valid. |
| UserForm.InitialIsRejected | src/components/UserTable/UserForm.js:6-41 | The empty dialog is rejected on name, e-mail and role. The e-mail message is "Invalid email format". |
| UserForm.HandleChange | src/components/UserTable/UserForm.js:51-60 | Only the named field changes, and only its error is blanked. |
| UserForm.WhiteSpaceNameIsRejected | src/components/UserTable/UserForm.js:33 | A whitespace-only name is reported as "Name is required". |
| RoleForm.Validate | src/pages/Roles/RoleForm.js:31-38 | The error map has a key exactly for each failing field: blank name, blank description, empty permission list. |
| RoleForm.Submit | src/pages/Roles/RoleForm.js:41-46 | The data is submitted, unchanged, iff the form is valid. |
| RoleForm.HandleChange | src/pages/Roles/RoleForm.js:48-57 | The permissions field takes an array as is and wraps a single value in a list. Text fields take the text. Only the edited field's error is blanked. |
| RoleForm.TogglePermission | src/pages/Roles/RoleForm.js:59-69 | A present name is removed, every copy of it, and the other names keep their order. An absent name is appended at the end. The permissions error is blanked. |
| RoleForm.ToggleTwiceRestores | src/pages/Roles/RoleForm.js:59-65 | Ticking an absent name and unticking it restores the form data. |
| RoleForm.ToggleKeepsNamesDistinct | src/pages/Roles/RoleForm.js:59-65 | Toggling never introduces a duplicate name. |
| PermissionForm.Validate | src/pages/Permissions/PermissionForm.js:23-29 | Name is reported iff blank and description iff blank, each with its message. |
| PermissionForm.Submit | src/pages/Permissions/PermissionForm.js:43-48 | The data is submitted, unchanged, iff the form is valid. |
| PermissionForm.HandleChange | src/pages/Permissions/PermissionForm.js:32-41 | Only the named field changes, and only its error is blanked. |
| PermissionForm.WhiteSpaceNameIsRejected | src/pages/Permissions/PermissionForm.js:25 | A whitespace-only name is reported as "Permission name is required". |
| PermissionForm.DialogAcceptsWhatTheValidatorRefuses | src/pages/Permissions/PermissionForm.js:23-29 | A name starting with a capital letter passes the dialog. The request validator would answer it with 400 "Permission name must be lowercase with underscores only"; `server.js` does not mount that validator. |
| Entities.ActiveCount | src/context/AppContext.js:44 | Counts the users whose status is exactly "Active". The count is at most the number of users, and equal to it iff all are active. |
| AppStats.UpdateStats | src/context/AppContext.js:39-46 | The totals are the list lengths. Active sessions are the "Active" users, never more than the total. |
| Dashboard.BasicStats | src/pages/Dashboard/Dashboard.js:124-129 | The same counters as the shared context's. The totals are the list lengths. Sessions are the length of the filter to "Active" users, so sessions ≤ users. |
| Dashboard.RoleBars | src/pages/Dashboard/Dashboard.js:132-135 | One bar per role, in order, as tall as its permission list. |
| Dashboard.Bump | src/pages/Dashboard/Dashboard.js:142 | The key's count grows by one and no other count changes. The total grows by one, names stay distinct and counts stay positive. |
| Dashboard.Histogram | src/pages/Dashboard/Dashboard.js:139-148 | Each key's count is its number of occurrences. Names are distinct, counts are positive, and counts sum to the number of keys. |
| Dashboard.HistogramNames | src/pages/Dashboard/Dashboard.js:145-148 | The histogram has an entry named x iff x was counted. |
| Dashboard.AllGrants | src/pages/Dashboard/Dashboard.js:140-144 | Every role's names are visited, repeats included: each name occurs as often as its occurrences in each role's list added up over the roles, and the names counted are as many as the total of all roles' list lengths. |
| Dashboard.PermissionDistribution | src/pages/Dashboard/Dashboard.js:139-149 | Each permission's value is its number of occurrences in each role's list, added up over the roles. Values sum to the total list length. |
| Dashboard.UserRoleDistribution | src/pages/Dashboard/Dashboard.js:152-161 | Each role name's count is its number of users. Names are distinct, counts are at least one, and counts sum to the number of users. |
| ObjectCounts.BumpAsWritten | src/pages/Dashboard/Dashboard.js:142 | Counting `__proto__` leaves the object unchanged. A key without an own property adds one entry at the end. A key with one leaves the number of entries alone. No entry changes name. |
| ObjectCounts.HistogramAsWritten | src/pages/Dashboard/Dashboard.js:139-148 | The object never has more entries than keys counted. |
| ObjectCounts.ProtoIsNeverListed | src/pages/Dashboard/Dashboard.js:139-148 | However often `__proto__` is counted, the object's entries never include it. |
| ObjectCounts.ProtoGrantIsLost | src/pages/Dashboard/Dashboard.js:139-148 | A single `__proto__` grant gives no entry as written, and one entry with count 1 when corrected. |
| ObjectCounts.InheritedNameCountsAsText | src/pages/Dashboard/Dashboard.js:152-155 | A single key such as `constructor` is stored as the inherited function's source text followed by "1", not as the number 1. |
| ObjectCounts.AgreesOffPrototype | src/pages/Dashboard/Dashboard.js:139-161 | When no key is an `Object.prototype` property name, the object's entries are exactly the corrected histogram. |
| Dashboard.PieDimensions | src/pages/Dashboard/Dashboard.js:92-112 | 30/50/10 below 380 pixels, 40/65/15 below 768, 60/100/20 otherwise. Inner radius < outer radius. |
| Dashboard.PieGrowsWithWidth | src/pages/Dashboard/Dashboard.js:92-112 | A wider window never gets a smaller pie. |
| Dashboard.ColourIndex | src/pages/Dashboard/Dashboard.js:256 | Always a valid palette index. The first twelve indexes map to themselves. |
| Dashboard.ColoursCycle | src/pages/Dashboard/Dashboard.js:256 | Colours repeat with period twelve. Twelve neighbouring entries never share a colour. |
| ListPage.ReplaceById | src/pages/Users/Users.js:95 | Entries with the saved id become the saved record and all others are kept. The list's ids do not change. |
| ListPage.ReplaceTwice | src/pages/Users/Users.js:95 | Saving the same record twice is saving it once. |
| ListPage.RemoveId | src/pages/Users/Users.js:110 | No entry with that id remains. Every other entry stays, in order. |
| ListPage.RemoveIds | src/pages/Users/Users.js:127 | No entry with a selected id remains. Every other entry stays, in order. An empty selection removes nothing. |
| ListPage.RemoveIdsTwice | src/pages/Users/Users.js:127 | Removing the same ids again removes nothing more. |
| UsersPage.AddRequest | src/pages/Users/Users.js:75-79 | The request carries the dialog's name, e-mail and role, status "Active" and `createdAt` = now. |
| UsersPage.AddRequestIgnoresDialogStatus | src/pages/Users/Users.js:75-79 | The status chosen in the dialog never reaches the request. |
| UsersPage.AddUser | src/pages/Users/Users.js:72-89 | The saved user is appended. A failed call changes nothing. |
| UsersPage.EditUser | src/pages/Users/Users.js:91-104 | Exactly the entries with the saved id are replaced. The ids are kept and a failed call changes nothing. |
| UsersPage.DeleteUser | src/pages/Users/Users.js:106-118 | The user and its id in the selection go. Every other user and selected id stays. |
| UsersPage.BulkRequest | src/pages/Users/Users.js:120-125 | No call is made iff nothing is selected. Otherwise the selected ids are sent. |
| UsersPage.DeleteSelected | src/pages/Users/Users.js:120-136 | An empty selection changes nothing. A truthy `success` removes exactly the selected users and clears the selection. Anything else changes nothing. |
| UsersPage.SelectAll | src/pages/Users/Users.js:138-144 | Ticking selects every user id in order. Unticking clears the selection. |
| UsersPage.SelectOne | src/pages/Users/Users.js:146-153 | A selected id is removed, every copy of it, and the other ids keep their order. An unselected id is appended at the end. |
| UsersPage.SelectAllTicksHeader | src/pages/Users/Users.js:138-144 | After select-all, the table's header box is ticked. |
| UsersPage.StepKeepsSelectionListed | src/pages/Users/Users.js:72-153 | If rows are ticked only for listed users, no handler leaves a selected id that names no listed user. |
| RolesPage.AddRole | src/pages/Roles/Roles.js:92-104 | The created role is appended. A failed call changes nothing. |
| RolesPage.EditRole | src/pages/Roles/Roles.js:106-119 | Exactly the entries with the saved id are replaced, and the ids are kept. |
| RolesPage.DeleteRole | src/pages/Roles/Roles.js:121-133 | The role and its id in the selection go. Everything else stays. This is `handleDeleteRole`, which nothing on the page calls; the table's delete goes through `handleDelete` (ConfirmedDelete). |
| RolesPage.ConfirmedDelete | src/pages/Roles/Roles.js:41-55 | Without confirmation nothing changes. With it, the role and its selected id go. |
| RolesPage.DeleteSelected | src/pages/Roles/Roles.js:135-151 | An empty selection changes nothing. A truthy `success` removes the selected roles and clears the selection. |
| RolesPage.BulkDeleteRemovesExactlySelected | src/pages/Roles/Roles.js:135-151 | After a successful bulk delete no selected role is listed, and every other role keeps its place. |
| RolesPage.SelectAll | src/pages/Roles/Roles.js:153-159 | Ticking selects every role id in order. Unticking clears the selection. |
| RolesPage.SelectOne | src/pages/Roles/Roles.js:161-168 | A selected id is removed, every copy of it, and the other ids keep their order. An unselected id is appended at the end. |
| RolesPage.SelectOneTwice | src/pages/Roles/Roles.js:161-168 | Ticking an unticked row twice restores the selection. |
| PermissionsPage.AddPermission | src/pages/Permissions/Permissions.js:34-46 | The saved permission is appended. A failed call changes nothing. |
| PermissionsPage.EditPermission | src/pages/Permissions/Permissions.js:48-63 | Exactly the entries with the saved id are replaced, and the ids are kept. |
| PermissionsPage.DeletePermission | src/pages/Permissions/Permissions.js:65-76 | The permission goes and the selection is untouched. |
| PermissionsPage.SingleDeleteLeavesStaleSelection | src/pages/Permissions/Permissions.js:65-76 | Deleting a selected permission leaves its id selected, though no listed permission carries it. |
| PermissionsPage.DeleteSelected | src/pages/Permissions/Permissions.js:86-98 | When all delete calls resolve, the selected permissions go and the selection is cleared. When any throws, nothing changes. |
| PermissionsPage.EmptyBulkDeleteKeepsList | src/pages/Permissions/Permissions.js:86-98 | With nothing selected the bulk delete still runs and leaves the list unchanged. |
| PermissionsPage.SelectAll | src/pages/Permissions/Permissions.js:78-84 | Ticking selects every permission id in order. Unticking clears the selection. |
| PermissionsPage.SelectOne | src/pages/Permissions/Permissions.js:168-174 | A selected id is removed, every copy of it, and the other ids keep their order. An unselected id is appended at the end. |
| PermissionsPage.TableSeesNoSelection | src/pages/Permissions/Permissions.js:159-178 | The table gets no `selected`, so neither a row box nor the header box is ever ticked. |
| PermissionsPage.SelectionStaysEmpty | src/pages/Permissions/Permissions.js:130-178 | The table is not selectable, so from the page's empty starting selection no run of events selects anything and the bulk-delete button never shows. |

## Left out

- EventServer.Render: how json-server's router reads or writes the store is not modelled. Each routed request carries the store the router leaves behind, and `Render` installs it before broadcasting, so later snapshots and bulk deletes see routed writes.
- HTTP and event-stream transport is not modelled. This covers headers, `res.write`, `server.use`, `listen` and the json-server/lowdb internals. Client writes are appended to per-client frame logs, and the store is a map of record sequences.
- Timers: the keepalive interval and the reconnect `setTimeout` are events in the model. Wall-clock timing is not modelled.
- `JSON.stringify` payloads are structured events. `EventServer.Wire` takes the encoder as a parameter.
- Foreign calls are inputs: the WebSocket constructor, `JSON.parse`, axios in `src/services/api.js` and every API call a page makes. So are `Date.now()` (passed as `now`) and `window.confirm` (passed as `confirmed`).
- A message whose `JSON.parse` throws, or whose parsed value is `null`, makes `onmessage` throw. It is not modelled.
- `src/services/api.js` is not part of this model. This includes which URL the client's bulk-delete calls use.
- Json numbers are integers only. Fractional JSON numbers and floating point are not modelled.
- Json.ToNumber: the numeral grammar covers only optionally signed decimal digits, after white space is trimmed. `"1.0"`, `"1e3"`, `"0x10"` and `"Infinity"` give `NonInteger`, whereas JavaScript's `Number` gives 1, 1000, 16 and an infinity.
- Text.ToLower: only ASCII letters are lower-cased. JavaScript's `toLowerCase` applies full Unicode case mapping.
- DataTable.Visible: `Object.values` is a map's values, so field order and duplicate values play no part. Nested objects stringify as `[object Object]`, as in JavaScript.
- RequestValidation.Validate: `server.js` does not install the validator. It mounts only `jsonServer.defaults()`, its own two routes and the router, and nothing requires `server/middleware.js`. The model states what the validator would answer if it were mounted; no modelled server operation runs it.
- RequestValidation.Validate:
  - The store's permission list is a parameter. `router` is not defined in `server/middleware.js`, so the uniqueness check would throw there.
  - The `p.id !== req.params.id` test is always true for `POST /permissions`, which has no `:id` parameter, so uniqueness is by name only.
  - A request body that is not an object is not modelled.
- Dashboard.Histogram: counts every key, including the property names `Object.prototype` carries. The source does not; ObjectCounts models it and the Findings section compares the two.
- Dashboard.Histogram: entries come in order of first appearance. `Object.entries` lists integer-like keys first, in numeric order; names and counts are the same either way.
- Dashboard.Bump: counts an occurrence of every key. For `__proto__`, `constructor` and the other `Object.prototype` names the source's `(counts[k] || 0) + 1` does not; see Findings.
- Dashboard.HistogramNames: lists every counted key. The source never lists `__proto__`; see Findings.
- Dashboard.PermissionDistribution: the stated counts hold in the source only for permission names outside `Object.prototype`'s property names; see Findings.
- Dashboard.UserRoleDistribution: the stated counts and sum hold in the source only for role names outside `Object.prototype`'s property names; see Findings.
- ObjectCounts.BumpAsWritten: `Object.entries` lists own properties in creation order except that integer-like keys come first; the as-written entries keep creation order. The function source text follows the V8 engine's form.
- Records with string ids are not modelled. json-server accepts them, and a bulk delete's numeric target never matches the string "5".
- Extra fields a caller passes to `addPermission` or `updatePermission` are not modelled. Their spreads copy them into the stored record, but no modelled property reads them.
- A patch field that is present but `undefined` is not modelled. The spread would write `undefined` over the field, where `Patch` can only leave it as it is.
- Subscriptions.Unsubscribe: requires that the endpoint has a set. Every unsubscribe closure comes from a `subscribe` that created the set, and sets are never removed.
- Subscriptions.Dispatch: only a string `endpoint` finds a set, because subscriptions are made under string endpoints.
- Subscriptions.Dispatch: callbacks are assumed to leave the registry alone during dispatch. `Set.prototype.forEach` would also visit a callback added mid-iteration and skip one deleted before its turn. A callback that throws is modelled by NotifyThrowing.
- Handlers are modelled as non-overlapping: each one runs to completion on the current state before the next starts. In the source several handlers write a list captured when the call started, not the latest one: `handleDelete`, `handleAddRole`, `handleEditRole` and `handleDeleteRole` in Roles.js (lines 46, 96, 110, 125), `handleEditUser` and `handleDeleteUser` in Users.js (95, 110), and `handleEditPermission` in Permissions.js (52). The Add button and the dialog stay usable while a call is pending (Roles.js:183-198, 220-228). So two overlapping calls can lose an update: a role deleted while an add is pending comes back when the add resolves. This is not modelled.
- RoleForm.HandleChange: requires a text value for the name and description fields, which are text inputs.
- ListPage.RemoveIds: ids compare as integers. JavaScript's `includes` uses `===`, which gives the same result for numeric ids.
- PermissionsPage.DeleteSelected: `Promise.all` may reject after some server-side deletes succeeded. The model records only that the list is left unchanged.
- The `initialData` effect that loads a record into a dialog is not modelled. Neither are the loading and error flags, notifications, dialog open/close state or all rendering: React, MUI, recharts, Tailwind and the percent labels.
- The `initialUsers` and `roles` exports of `src/services/mockData.js` are constants the modelled operations do not read.
- These whole files are not part of this model: `src/App.js`, `src/pages/Login/Login.js`, `src/pages/Profile/Profile.js`, `src/components/Layout/Sidebar.js`, `src/components/Layout/Layout.js`, `src/components/Unauthorized.js`, `src/components/LoadingState.js`, `src/context/NotificationContext.js`.

## Findings

| source | as written | input that shows it | evidently intended | confidence | as-written member | corrected member |
|---|---|---|---|---|---|---|
| src/pages/Dashboard/Dashboard.js:139-161 | counts into a plain object `{}`, whose reads fall through to `Object.prototype` | a role granting the permission `__proto__`, which even the unmounted validator's `^[a-z_]+$` rule accepts, or a user with role `constructor` | one entry per distinct key, with its number of occurrences | not executed; follows from JavaScript's property lookup | ObjectCounts.HistogramAsWritten, with ObjectCounts.ProtoGrantIsLost and ObjectCounts.InheritedNameCountsAsText | Dashboard.Histogram, with Dashboard.HistogramNames and ObjectCounts.AgreesOffPrototype |
