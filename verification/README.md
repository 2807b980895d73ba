# Emergency reporting app — a Dafny model of its decision logic

This project models the logic of a Next.js emergency-reporting application:
the incident record and the lifecycle its consoles offer, the socket event
routing of its two socket servers, the report aggregation, account creation,
sign-in and the access decisions, the news articles, and small pieces of
client-side state (the toast store, the live map's location poll, and the
hospital list). Every part is written as immutable datatypes and pure
functions. The Mongo collections become sequences of records in store order.
The socket.io room registry becomes a map from room name to a set of sockets.
Clocks, identifiers, password hashing and Google token checks become
parameters.

Files and modules follow the source:

- `common.dfy` — `Common`: `Option`, the JavaScript array operations (`filter`, counting, `new Set`, sorting, `slice`), and their lemmas.
- `text.dfy`
  - `Text`: ASCII lower-casing, `includes`, `trim`, `split` and `join`, and the `\S+@\S+\.\S+` test.
  - `Decimal`: `toString` of naturals and parsing it back.
- `emergency.dfy`
  - `EmergencyModel`: models/Emergency.ts.
  - `EmergencyRoute`: app/api/emergencies/route.ts.
- `incident_ui.dfy`
  - `IncidentConsole`: components/EmergencyManagement.tsx.
  - `IncidentList`: components/EmergencyList.tsx.
  - `Dashboard`: components/StatsDashboard.tsx.
- `sockets.dfy`
  - `Rooms`: the registry and the two addressing modes.
  - `SocketServer`: lib/socket-server.ts.
  - `LegacySocketServer`: server.js.
- `reports.dfy` — `Reports`: app/api/reports/route.ts.
- `users.dfy`
  - `UserModel`: models/User.ts.
  - `UsersRoute`, `RegisterRoute` and `AdminUsersRoute`: the three user routes.
  - `Api`: their reply envelope.
- `auth.dfy`
  - `Session`: the `jwt` and `session` callbacks of lib/auth.ts.
  - `CredentialsAuth`: the credentials `authorize` of lib/auth.ts.
  - `GoogleSignIn`: the Google `signIn` callback of lib/auth.ts.
  - `GoogleRoute`: app/api/auth/google/route.ts.
- `access.dfy`
  - `Middleware`: proxy.ts and middle.ts.
  - `AdminGuard`: components/AuthGuard.tsx.
- `user_console.dfy` — `UserConsole`: components/UserManagement.tsx.
- `news.dfy`
  - `NewsModel`: models/News.ts.
  - `NewsRoute`: app/api/news/route.ts.
  - `NewsPage`: app/news/page.tsx.
- `client_state.dfy`
  - `LocationWatch`: app/map/page.tsx.
  - `HospitalList`: app/hospitals/page.tsx.
  - `Toasts`: components/ui/use-toast.tsx.

Each file keeps its own literals where the files disagree:

- the admin role is `'admin'` in proxy.ts and the users route, and `'system-admin'` elsewhere;
- an incident room is `incident_<id>` in lib/socket-server.ts and the bare id in server.js;
- the `byType` keys of the report keep their labels: `crime` counts flood records and `other` counts ambulance records.

## Model

| member | source | states |
|---|---|---|
| Common.Count | app/api/reports/route.ts:46 | `filter(p).length`: the number of elements satisfying the test, never more than the length |
| Common.Filter | app/api/reports/route.ts:72 | `filter(p)`: the elements satisfying the test, each one that does, in their original order |
| Common.Dedup | app/hospitals/page.tsx:34 | `[...new Set(s)]`: every element once, in order of first occurrence |
| Common.SortDesc | app/api/reports/route.ts:111 | a permutation of the input by non-increasing key |
| Common.Take | app/api/reports/route.ts:112 | `slice(0, n)`: the first `n` elements, or all when fewer |
| Middleware.AuthAdminDisjoint | proxy.ts:8-9 | no path starts with both `/auth` and `/admin`, so the two page tests never both hold |
| Middleware.Decide | proxy.ts:6-26 | a signed-in visit to an `/auth` page goes to `/`; an anonymous visit elsewhere goes to `/auth/signin`; `/unauthorized` is chosen exactly for a signed-in, non-`/auth`, `/admin` visit whose token role differs from the admin literal; no other target is ever produced |
| Middleware.ProceedIff | middle.ts:11-26 | a request proceeds unchanged exactly when it is an anonymous `/auth` visit, or a signed-in non-`/auth` visit that is not on an `/admin` page or carries the admin role |
| Middleware.AnonymousAdminGoesToSignIn | proxy.ts:11-24 | the checks run in order: an anonymous `/admin` request is sent to sign-in, never to `/unauthorized` |
| Middleware.Proxy | proxy.ts:22-42 | only `/`, `/report` and `/admin`, `/auth` with any sub-path are intercepted; intercepted requests are decided with the literal `'admin'` |
| Middleware.Middle | middle.ts:22-24 | the same decision with the literal `'system-admin'` |
| Middleware.ProxyAndMiddleDiffer | proxy.ts:22 | the two middleware files decide differently only on matched `/admin` paths, and no signed-in token passes both there |
| AdminGuard.Navigate | components/AuthGuard.tsx:15-24 | `unauthenticated` navigates to `/auth/signin`; authenticated without the `'system-admin'` role navigates to `/`; no navigation exactly while loading or when authorized |
| AdminGuard.View | components/AuthGuard.tsx:26-39 | loading shows the spinner; the children render exactly when not loading and the session has role `'system-admin'` |
| AdminGuard.ChildrenOnlyWithoutRedirect | components/AuthGuard.tsx:18-39 | whenever the children render the guard does not navigate to `/`, and a navigation to `/` renders nothing |
| Session.Jwt | lib/auth.ts:95-110 | outside a sign-in, or when the token's email names no stored user, the token is returned unchanged; otherwise it takes that user's role, id, phone and googleId, keeps its own name and email, and its `lguCode` is cleared because the schema declares none |
| Session.SessionOf | lib/auth.ts:112-121 | a session without a user stays without one; otherwise role, id, phone, googleId and lguCode come from the token and name and email are kept |
| Session.SessionCarriesStoredRole | lib/auth.ts:95-121 | a sign-in followed by the session callback shows the stored user's role and no LGU code |
| CredentialsAuth.Authorize | lib/auth.ts:23-64 | missing email or password is refused before any lookup; an unknown email, then a password-less (Google) account, are refused with their messages; success requires the password predicate, updates only that user's `lastSeen`, and returns the stored id, email and role with `lguCode` always null, since the schema declares none; a refusal leaves the store unchanged |
| CredentialsAuth.AuthorizeDecidedByPassword | lib/auth.ts:41-52 | for a known account with a password, the outcome is success exactly when the password predicate holds; a mismatch is refused with "Invalid password" and changes nothing; every other user, and every field but `lastSeen`, is untouched |
| GoogleSignIn.SignInUnder | lib/auth.ts:69-93 | a provider other than Google is allowed without change; an existing email is allowed and gains the Google id only if it had none; a failed create changes nothing |
| GoogleSignIn.NewGoogleAccountFailsAsWritten | lib/auth.ts:76-85 | under the user schema as written, the create for an unknown email fails (no password, no phone), so the sign-in fails and nothing is stored |
| GoogleSignIn.SignIn | lib/auth.ts:76-92 | with the schema's password and phone optional for Google accounts, an unknown email with a name is appended as an active `user` account carrying the provider account id, and the rest of the store is unchanged |
| GoogleSignIn.LinkOnlyWhenMissing | lib/auth.ts:86-90 | for an existing email only that account can change: it gets the Google id when it had none, and an existing link is never overwritten |
| GoogleRoute.PostUnder | app/api/auth/google/route.ts:14-77 | a missing token is a 400 before verification; a throwing verifier is 401; an empty payload is 400; an existing user gets `lastSeen` set and the Google id only when it had none, and the reply is that user's view, whose `lguCode` and `municipality` are `''` because the schema declares neither; every non-200 reply leaves the store unchanged |
| GoogleRoute.FirstGoogleLoginFailsAsWritten | app/api/auth/google/route.ts:35-46 | under the user schema as written, a first-time Google user is always answered 401 and nothing is stored |
| GoogleRoute.Post | app/api/auth/google/route.ts:35-69 | with the corrected schema, a first-time user is appended with the body role or `'user'`, active, `lastSeen` now and the Google id, and the reply carries `''` for the missing phone and province |
| UserModel.SaveErrorsAsWritten | models/User.ts:43-52 | as written, a save is rejected for a missing name, email, password or phone, for a role outside `user`/`admin`/`responder`, and (through the location sub-schema) for a location fix without latitude or longitude |
| UserModel.SaveErrors | models/User.ts:45-49 | the corrected schema: the same checks, except that password and phone are required only of accounts without a Google id |
| UserModel.SchemasAgreeWithCredentials | models/User.ts:45-48 | for a draft that carries a password and a phone, the two readings of the schema reject exactly the same fields |
| UserModel.SaveAsWritten | models/User.ts:43-56 | a save under the schema as written is rejected exactly when a validator fails, and reports those fields |
| UserModel.Save | models/User.ts:43-56 | validators run first, then the unique email and phone indexes (a duplicate key exactly when valid and taken); a saved user keeps the draft's fields, takes role `'user'`, `isActive` true and `lastSeen` now by default, always has an enumerated role, and has a password and phone unless it is a Google account |
| UserModel.SaveUnder | models/User.ts:43-56 | selects the schema reading a save runs under |
| UserModel.SavePreservesUniqueKeys | models/User.ts:46-48 | appending a saved user to a store whose emails and present phones are unique keeps them unique |
| UserModel.FindByEmail | lib/auth.ts:30 | `findOne({email})`: the first stored user with that email, or none when no user has it |
| UserModel.Project | app/api/users/route.ts:31-33 | `.select('-password')` keeps id, email, role and creation time |
| UserModel.ProjectForgetsOnlyPassword | app/api/admin/users/route.ts:20-21 | two users with the same projection differ at most in their password |
| UserModel.ListPublic | app/api/admin/users/route.ts:20-22 | the listing has one password-free entry per stored user, as a permutation of the projected store, newest `createdAt` first |
| UserModel.ListPublicFromStore | app/api/users/route.ts:31-33 | every listed entry is the projection of some stored user |
| UsersRoute.Gate | app/api/users/route.ts:14-27 | 401 without a session, 403 when the role is not `'admin'`, and passes exactly for an `'admin'` session |
| UsersRoute.Get | app/api/users/route.ts:10-46 | the gate's refusal is returned as is; an unreachable store is a 500; success is 200 with the password-free listing |
| UsersRoute.Validate | app/api/users/route.ts:71-94 | a body passes exactly when name, email, phone and password are all present, the email has the `\S+@\S+\.\S+` shape and the password has at least 6 characters; missing fields are reported first |
| UsersRoute.Post | app/api/users/route.ts:49-142 | gate, then body checks, then the email-or-phone duplicate check, each refusing with its code and message and leaving the store unchanged; a user is created exactly when the gate and body checks pass, the email and phone are new, any supplied role is one of the enumeration and the hash is non-empty; a created user is appended with the hash of the password, role `'user'` and `isActive` true unless supplied, and the body's email and phone |
| UsersRoute.PostKeepsUniqueKeys | app/api/users/route.ts:99-124 | a POST keeps emails and present phones unique in the store, and a body role outside the enumeration never creates a user |
| RegisterRoute.Post | app/api/auth/register/route.ts:6-70 | missing name, email, password or phone is a 400; an existing email or phone is a 400 with no insert; a user is created exactly when all four fields are present, the email and phone are new, any supplied role is one of the enumeration and the hash is non-empty; a created user is appended with the password hash, `isActive` true, `lastSeen` now and the body role or `'user'`, and the reply is only id, name, email, phone and role |
| RegisterRoute.RegisterRoles | app/api/auth/register/route.ts:22-47 | registration keeps emails and phones unique; a caller asking for `'admin'` with all fields present, a new email and phone and a non-empty hash is registered, and as `'admin'` |
| AdminUsersRoute.Get | app/api/admin/users/route.ts:7-35 | no session or a role other than `'system-admin'` is a single 401; an unreachable store is a 500; success is the password-free listing, newest first |
| AdminUsersRoute.ListingGatesDisjoint | app/api/admin/users/route.ts:11 | no session is admitted both by this listing and by the `'admin'`-gated users route |
| EmergencyModel.ParseType | models/Emergency.ts:71-75 | the `emergencyType` enum check accepts only the seven names, each as the value it names |
| EmergencyModel.ParseSeverity | models/Emergency.ts:77-81 | the `severity` enum check accepts only `low`, `medium`, `high`, `critical` |
| EmergencyModel.ParseStatus | models/Emergency.ts:83-87 | the `status` enum check accepts only the five lifecycle names |
| EmergencyModel.EnumNamesRoundTrip | models/Emergency.ts:36-50 | every type, severity and status name parses back to the value it names |
| EmergencyModel.SaveErrors | models/Emergency.ts:59-92 | a draft passes validation exactly when lguCode, userId, userName, userPhone and location are present, the type is in its enumeration, and severity and status are missing or in theirs |
| EmergencyModel.Save | models/Emergency.ts:59-97 | a save is rejected exactly when a validator fails, reporting those paths; a saved record satisfies the schema, carries the draft's fields, takes severity `medium` and status `pending` when missing, has no responder or arrival yet, and gets both timestamps from the clock |
| EmergencyModel.MissingRequiredRejected | models/Emergency.ts:61-75 | a draft missing any one required field is rejected whatever the rest holds |
| EmergencyModel.SaveDefaults | models/Emergency.ts:77-87 | a saved draft without severity and status comes out `medium` and `pending` |
| EmergencyModel.FindById | server.js:60-66 | `findById`: the record with that id, or none when no record has it |
| EmergencyRoute.Post | app/api/emergencies/route.ts:5-49 | no `location` object is a 500; a non-numeric longitude or latitude is a 400 "Invalid coordinates"; an accuracy that cannot be cast is a 500; otherwise a record is created exactly when the built document passes the schema's validators, and a document that fails is a 500 naming the failing paths; every non-201 reply leaves the store unchanged; a created record is appended with coordinates exactly `[longitude, latitude]`, status `pending` whatever the body says, accuracy 0 when absent, severity `medium` when absent, and the body's user and LGU |
| EmergencyRoute.CreateThenRead | app/api/emergencies/route.ts:19-36 | after a create, the store still has unique ids and the record found by the new id has the posted coordinate pair and status `pending` |
| EmergencyRoute.BuildQuery | app/api/emergencies/route.ts:60-63 | the `find` filter has a status constraint exactly when a non-empty `status` parameter is given, and an LGU constraint exactly when a non-empty `lguCode` is given, each equal to the parameter |
| EmergencyRoute.List | app/api/emergencies/route.ts:58-68 | every listed record is a stored record (no record listed more often than stored) that matches the filter; the list is newest `createdAt` first and holds at most the limit |
| EmergencyRoute.ListNewestFirst | app/api/emergencies/route.ts:65-68 | the list holds as many matching records as the limit allows, and every matching record left out is no newer than any record listed |
| EmergencyRoute.ListUnfiltered | app/api/emergencies/route.ts:58-63 | with neither parameter every record of every LGU matches, and the default call lists min(50, store size) records |
| IncidentConsole.FilterEmergencies | components/EmergencyManagement.tsx:86-115 | the shown list is an order-preserving subsequence of the records; every kept record passes each active filter, and every record passing them all is kept |
| IncidentConsole.TwoStages | components/EmergencyManagement.tsx:89-101 | the search stage followed by the status stage is one filter by both conditions |
| IncidentConsole.ThreeStages | components/EmergencyManagement.tsx:89-108 | adding the severity stage is one filter by the three conditions |
| IncidentConsole.FourthFilter | components/EmergencyManagement.tsx:104-112 | filtering by type after the first three is filtering by all four |
| IncidentConsole.FilterChainKeep | components/EmergencyManagement.tsx:86-115 | the four stages, each skipped when inactive, equal one filter by the conjunction of the four conditions |
| IncidentConsole.NoFilterKeepsAll | components/EmergencyManagement.tsx:86-115 | with an empty search and every filter at `'all'` the list is shown unchanged |
| IncidentConsole.OfferedActions | components/EmergencyManagement.tsx:555-647 | View is always offered; Delete exactly for a `'system-admin'` session whatever the status; Cancel exactly for a status other than resolved and cancelled |
| IncidentConsole.ActionTable | components/EmergencyManagement.tsx:555-637 | pending offers acknowledge, respond and cancel; acknowledged offers respond, resolve and cancel; responding offers resolve and cancel; resolved and cancelled offer no lifecycle action |
| IncidentConsole.MonotoneProgress | components/EmergencyManagement.tsx:555-637 | every lifecycle action offered on a known status targets a strictly later stage, and none is offered on resolved or cancelled |
| IncidentConsole.TerminalIff | components/EmergencyManagement.tsx:555-637 | a known status offers no lifecycle action exactly when it is resolved or cancelled |
| IncidentConsole.AcknowledgeRequest | components/EmergencyManagement.tsx:117-148 | a PATCH of the item with status `acknowledged` and the session's id and name as responder; acknowledgement details exactly when form data is passed, carrying its priority and the session name |
| IncidentConsole.RespondRequest | components/EmergencyManagement.tsx:150-183 | a PATCH with status `responding` and the session responder; response details exactly when form data is passed, carrying its team and arrival estimate |
| IncidentConsole.ResolveRequest | components/EmergencyManagement.tsx:185-207 | a request exactly when the user confirms: a PATCH of `/api/emergencies/<id>` whose body sets status `resolved` and the resolution time and carries no responder, acknowledgement or response details |
| IncidentConsole.CancelRequest | components/EmergencyManagement.tsx:209-228 | a request exactly when the user confirms: a PATCH of `/api/emergencies/<id>` whose body sets status `cancelled`, with no responder and no resolution time |
| IncidentConsole.DeleteItemRequest | components/EmergencyManagement.tsx:230-249 | a request exactly when the user confirms: a DELETE of `/api/emergencies/<id>` |
| IncidentConsole.RequestsMatchTargets | components/EmergencyManagement.tsx:117-228 | each confirmed lifecycle button sends a PATCH of that item whose status is exactly the table's target for the action |
| IncidentConsole.Stats | components/EmergencyManagement.tsx:343-350 | `total` is the record count; each status counter is the number of records with that status; `critical` is the number of critical records whatever their status, never more than the total |
| IncidentConsole.StatusCountersBounded | components/EmergencyManagement.tsx:343-349 | pending + acknowledged + responding + resolved is the total minus the records with any other status (cancelled included), so it never exceeds the total |
| IncidentList.ColorMapsTotal | components/EmergencyList.tsx:18-37 | both colour maps are total: each known status and severity gets its class and any other text gets the gray default |
| IncidentList.Buttons | components/EmergencyList.tsx:102-122 | buttons appear exactly when a handler is supplied and the record is pending, and call it with `acknowledged` then `responding` |
| IncidentList.ButtonsAgreeWithConsole | components/EmergencyList.tsx:102-117 | the list's two buttons request the same targets the console offers for a pending record |
| Dashboard.Stats | components/StatsDashboard.tsx:12-19 | `total` is the record count; `pending` and `resolved` count the records with that status, `active` those acknowledged or responding, `critical` the critical ones not resolved; `activeUsers` counts the active users and never exceeds them |
| Dashboard.ActiveIsAcknowledgedPlusResponding | components/StatsDashboard.tsx:15 | `active` is exactly the acknowledged count plus the responding count |
| Dashboard.TilesBounded | components/StatsDashboard.tsx:13-16 | pending + active + resolved never exceeds the total |
| Dashboard.CancelledCriticalCounted | components/StatsDashboard.tsx:17 | a cancelled critical record is still counted as critical |
| Rooms.Join | lib/socket-server.ts:33 | `socket.join` adds the sender to that room and changes no other room |
| Rooms.LeaveAll | lib/socket-server.ts:129-131 | on a disconnect the socket is in no room any more, every other member stays, and no empty room remains |
| Rooms.SingleEmission | lib/socket-server.ts:37-127 | a room emit is delivered once to each member other than the excluded sender, with the emitted event and payload; an emit to one socket reaches that socket alone |
| Rooms.DeliveriesAppend | lib/socket-server.ts:103-116 | the deliveries of several emits in a row are the deliveries of each emit together |
| Rooms.AddressingModes | lib/socket-server.ts:37-59 | `socket.to(room)` reaches every member but the sender; `io.to(room)` reaches every member, the sender included |
| SocketServer.Step | lib/socket-server.ts:28-132 | only `joinIncident`, `joinLGU` and a disconnect change the room registry; a disconnect emits nothing and takes the socket out of every room |
| SocketServer.JoinIncidentNotifiesOthers | lib/socket-server.ts:32-41 | the sender joins `incident_<id>`, exactly one event is emitted, and `userJoined` reaches a socket exactly when it was already in the room and is not the sender |
| SocketServer.JoinLguUnchecked | lib/socket-server.ts:44-47 | any socket joins `lgu_<code>` with no check, and nothing is delivered |
| SocketServer.SendMessageReachesAll | lib/socket-server.ts:50-60 | `newMessage` reaches a socket exactly when it is in the incident room, the sender included; every delivered message carries the server's timestamp and keeps the client's other fields |
| SocketServer.TypingExcludesSender | lib/socket-server.ts:63-74 | typing indicators reach only room members other than the sender |
| SocketServer.ReceiptsReachWholeRoom | lib/socket-server.ts:77-91 | `messageRead` and `newFile` reach exactly the members of the incident room, the sender included, with the server's timestamp |
| SocketServer.StatusRelayedUnchecked | lib/socket-server.ts:94-100 | whatever status text is given reaches every member of the incident room with the updater and the server time, and the registry is unchanged |
| SocketServer.AssignLguTwoEvents | lib/socket-server.ts:103-116 | exactly two emissions: `lguAssigned` to the incident room and `newIncidentAssigned` to the LGU room, both including the sender |
| SocketServer.OnlineUsersToRequesterOnly | lib/socket-server.ts:119-127 | the only delivery is to the requester, carrying the room's member count, or 0 for a room nobody joined |
| SocketServer.DisconnectedNotCounted | lib/socket-server.ts:119-131 | after a socket disconnects, the count `getOnlineUsers` reports is the room's members without it |
| SocketServer.JoinThenDisconnectCountsZero | lib/socket-server.ts:119-131 | a socket that joins incident `1` and disconnects is not counted: the reply is 0 |
| SocketServer.InitSocket | lib/socket-server.ts:13-137 | a server is built exactly when none is attached; otherwise the attached instance is returned and nothing changes |
| SocketServer.InitMany | lib/socket-server.ts:13-137 | a run of calls returns exactly one instance per call |
| SocketServer.InitSocketIdempotent | lib/socket-server.ts:13-137 | over any run of calls at most one server is built (none if one was attached), every call returns the same instance, and it is the one attached |
| LegacySocketServer.Step | server.js:38-80 | only `updateEmergencyStatus` touches the store; only the two joins and a disconnect change the registry, and a disconnect emits nothing and takes the socket out of every room |
| LegacySocketServer.UpdateStatus | server.js:60-75 | a throwing store or an unknown id changes nothing and broadcasts nothing; otherwise that record's status is overwritten with the given text and its `updatedAt` set to now, and the updated record goes to room `<id>` as `statusUpdated` and to `lgu_<its lguCode>` as `emergencyQueueUpdated` |
| LegacySocketServer.StoreThenBroadcast | server.js:60-71 | any status text is stored with no transition check (a status outside the enumeration leaves a record the schema would reject), and both broadcasts carry exactly the stored record |
| LegacySocketServer.NoRecordNoBroadcast | server.js:68-74 | when the store throws or finds no record, nothing is broadcast and the store is unchanged |
| LegacySocketServer.MessagePassesThrough | server.js:54-57 | the client's message reaches every member of the room named by the bare id, the sender included, unchanged |
| LegacySocketServer.RoomNamesDiffer | server.js:43 | the two servers never name an incident's room the same: `incident_<id>` here against the bare id |
| LocationWatch.FindUser | app/map/page.tsx:45-47 | the lookup is None exactly when no remembered user has the id; otherwise it is the first remembered user with that id |
| LocationWatch.Alerting | app/map/page.tsx:44-57 | with no qualifying fetched user the alert is unchanged; otherwise it is the last fetched user that is new or seen strictly later than its first remembered copy |
| LocationWatch.Step | app/map/page.tsx:35-65 | a failed or thrown poll changes nothing; a successful one makes the fetched list both the remembered and the shown list |
| LocationWatch.FirstPollAlertsLast | app/map/page.tsx:44-50 | with nothing remembered, the alert after a non-empty successful poll is the last fetched user |
| LocationWatch.RepeatPollIsQuiet | app/map/page.tsx:44-60 | fetching the same list (ids distinct) a second time leaves the alert where the first poll put it |
| HospitalList.QueryOf | app/hospitals/page.tsx:22 | a missing query is the empty string; a present one is lower-cased |
| HospitalList.Render | app/hospitals/page.tsx:21-51 | the header counts every hospital; the rows are the hospitals, in order, that match both the query (in the lower-cased name or address) and the category, each one that matches is shown; the category choices are the distinct categories in first-occurrence order |
| HospitalList.NoFilterListsAll | app/hospitals/page.tsx:10-32 | with neither parameter every hospital is listed, in the fetched order (newest `createdAt` first) |
| HospitalList.QueryCaseBlind | app/hospitals/page.tsx:22-28 | a query and its lower-cased form give the same page |
| HospitalList.RowCategoriesOffered | app/hospitals/page.tsx:24-34 | every shown row's category is among the offered choices |
| Toasts.GenId | components/ui/use-toast.tsx:17-20 | the counter advances by one, wrapping to 0 at 2^53 - 1, and the id is its decimal form, which parses back to the counter |
| Toasts.GenIdFresh | components/ui/use-toast.tsx:17-20 | two counter values below the wrap-around give different ids |
| Toasts.Show | components/ui/use-toast.tsx:45-56 | with a limit of one, the list becomes exactly the new toast with a fresh id; its timeout is recorded under that id; the listeners are kept, and each is called once, in order, with the new list |
| Toasts.Dismiss | components/ui/use-toast.tsx:34-43 | a pending timeout for the id is cleared and forgotten, no other is touched; the list loses exactly the toasts bearing the id and keeps the rest in order; every listener is called with the new list |
| Toasts.DismissIdempotent | components/ui/use-toast.tsx:34-43 | a second dismiss of the same id changes nothing and clears no timer |
| Toasts.DismissAbsentKeepsToasts | components/ui/use-toast.tsx:41 | dismissing an id no toast bears keeps the list |
| Toasts.ShowThenExpire | components/ui/use-toast.tsx:48-55 | when a shown toast's timeout fires, the list is empty and exactly that toast's timer is cleared |
| Toasts.Subscribe | components/ui/use-toast.tsx:62 | the listener is appended and nothing else changes |
| Toasts.IndexOfListener | components/ui/use-toast.tsx:64 | the position of the first occurrence, or -1 exactly when absent |
| Toasts.Unsubscribe | components/ui/use-toast.tsx:63-66 | an absent listener changes nothing; a present one loses exactly one occurrence, and nothing else changes |
| Toasts.MountUnmount | components/ui/use-toast.tsx:61-67 | a component mounting and unmounting leaves the listeners as they were |
| NewsModel.SaveErrors | models/News.ts:21-70 | a field is rejected exactly when its validator fails: title and author required after trimming, title at most 200 characters after trimming, summary required and at most 500, content required, category and status within their enumerations when given |
| NewsModel.StripDisallowed | models/News.ts:86 | what remains holds only `[a-z0-9]`, whitespace and dashes, and keeps every letter and digit in order |
| NewsModel.DashWhitespace | models/News.ts:87 | no whitespace remains, each run became a dash, and the letters and digits are kept in order |
| NewsModel.CollapseDashes | models/News.ts:88 | no two dashes remain adjacent, the character set is kept, and so are the letters and digits |
| NewsModel.SlugPrefixShape | models/News.ts:83-89 | the slug's title part uses only `[a-z0-9-]`, never has two dashes in a row, and keeps every letter and digit of the lower-cased title, in order |
| NewsModel.SlugEndsWithTime | models/News.ts:83-91 | the slug splits back into the normalised title part, a dash, and the decimal clock reading, which parses back to the clock |
| NewsModel.PreSave | models/News.ts:81-98 | the slug is regenerated exactly for a new document or a changed title; `publishedAt` changes exactly when the status was modified to published and it was unset, and then becomes the clock; nothing else changes |
| NewsModel.PublishedAtLatch | models/News.ts:94-96 | across any run of later saves a set `publishedAt` never changes, and an unset one becomes set only at the time of a save that made the status published |
| NewsModel.SaveNew | models/News.ts:19-98 | a new article is rejected exactly when some validator fails, naming those fields; a saved one has the trimmed title, the slug of it, the defaults `general` and `draft` when absent, timestamps at the clock, and a publication time exactly when published |
| NewsRoute.PageOf | app/api/news/route.ts:11 | the page is the requested one (default 1), raised to 1 when lower |
| NewsRoute.LimitOf | app/api/news/route.ts:12 | the limit is the requested one (default 10) clamped to 1..50 |
| NewsRoute.TotalPages | app/api/news/route.ts:43 | `Math.ceil(total / limit)`: the fewest pages of `limit` that hold every match, 0 exactly when there are none |
| NewsRoute.Ordered | app/api/news/route.ts:18-33 | the matches of the filter object, each matching one included, newest first |
| NewsRoute.PageSlice | app/api/news/route.ts:30-32 | `skip((page - 1) * limit).limit(limit)`: at most `limit` consecutive records from the skip offset, empty past the end, and full up to the remainder |
| NewsRoute.Get | app/api/news/route.ts:6-50 | an unreachable store is a failure; otherwise the page of the ordered matches with the page, limit, match count and page count |
| NewsRoute.SliceKeeps | app/api/news/route.ts:30-32 | a page of records that all satisfy a property holds only such records |
| NewsRoute.PageMatches | app/api/news/route.ts:18-32 | a returned page holds at most `limit` records, each matching the filter |
| NewsRoute.PagesPartition | app/api/news/route.ts:30-43 | record `(page - 1) * limit + slot` of a listing is item `slot` of page `page`, and that page is within the page count |
| NewsRoute.GetPage | app/api/news/route.ts:11-43 | asking for page `page` returns that slice of the ordered matches and the page count of all of them |
| NewsRoute.NoFilterMatchesAll | app/api/news/route.ts:18-28 | with no filter parameters every article matches |
| NewsRoute.SearchIgnoresCase | app/api/news/route.ts:22-27 | searching for a text and for its lower-cased form match the same articles |
| NewsRoute.Post | app/api/news/route.ts:53-78 | a create fails exactly when validation fails; a created article has category `general` and status `draft` unless given truthy values, the given tags or none, and a publication time exactly when published |
| NewsRoute.PostDefaults | app/api/news/route.ts:59-69 | a body with only valid required fields creates a general draft with no tags and no publication time |
| NewsPage.TrimAll | app/news/page.tsx:375 | every piece trimmed, in order |
| NewsPage.ParsedTagsClean | app/news/page.tsx:375 | every parsed tag is non-empty, trimmed and free of commas |
| NewsPage.Spaced | app/news/page.tsx:354 | each tag with the space that `join(', ')` puts before it |
| NewsPage.TrimPieces | app/news/page.tsx:375 | trimming the pieces of the comma split of joined clean tags gives the tags back |
| NewsPage.TagsRoundTrip | app/news/page.tsx:354-375 | the edit dialog's `join(', ')` followed by the save's split, trim and filter gives the same clean tags back |
| NewsPage.CommaFree | app/news/page.tsx:354-375 | the pieces of a join of clean tags hold no comma |
| NewsPage.PayloadOf | app/news/page.tsx:371-376 | the payload is the form with the session's name as author, the session's LGU code, and the parsed tags |
| NewsPage.PayloadOverridesForm | app/news/page.tsx:372-374 | forms differing only in author and LGU code give the same payload |
| NewsPage.SaveRequestFor | app/news/page.tsx:377-378 | editing sends `PUT /api/news/<id>`; creating sends `POST /api/news` |
| NewsPage.FetchQuery | app/news/page.tsx:313-317 | page and limit 10 always; search, status, category and LGU code only when chosen |
| NewsPage.FetchAgreesWithRoute | app/news/page.tsx:313-317 | the route reads back page `page` of ten, and a status filter other than `all` restricts the results to that status |
| NewsPage.Step | app/news/page.tsx:592-608 | with the corrected Next test, Previous and Next keep the page at least 1 and Next never moves it past the page count; with one page or none the pager is not rendered and neither button changes anything; a change of filters (the effect at line 336) resets the page to 1 |
| NewsPage.NextRunsPastEndAsWritten | app/news/page.tsx:607-608 | as written, with page 3 of 2 Next stays enabled and every click moves one page further past the end |
| NewsPage.NextStopsAtEnd | app/news/page.tsx:607-608 | corrected, any number of Next clicks keeps the page count, never moves the page back, and ends at most at the last page unless it started past it |
| Reports.Selected | app/api/reports/route.ts:34-39 | exactly the records created within the range, bounds included, each once, newest first |
| Reports.TruncDiv | app/api/reports/route.ts:81-84 | the quotient truncated toward zero, for either sign |
| Reports.RoundRatio | app/api/reports/route.ts:90-116 | `Math.round(a / b)`: the integer nearest the ratio, halves rounding up |
| Reports.ResponseMinutes | app/api/reports/route.ts:81-84 | as written (`createdAt` first) a record updated after creation gives at most 0 minutes; corrected it gives at least 0, and at least 1 once a minute has passed |
| Reports.FormatMinutesFaithful | app/api/reports/route.ts:94-98 | the label is `N/A` exactly for a non-positive average, and distinct positive averages get distinct labels |
| Reports.FormatShape | app/api/reports/route.ts:94-98 | a positive label has at least three characters and its next-to-last one tells `<m> min` from `<h>h <m>m` |
| Reports.FormatInjective | app/api/reports/route.ts:94-98 | two positive averages with the same label are equal |
| Reports.RoundRatioSign | app/api/reports/route.ts:90-92 | a non-positive total rounds to at most 0, a total of at least the count to at least 1 |
| Reports.ResolutionRate | app/api/reports/route.ts:114-116 | 0 with no records; otherwise the percentage of resolved records rounded to the nearest integer, between 0 and 100 |
| Reports.Names | app/api/reports/route.ts:72-107 | the non-empty responder names in list order, each occurring as often as the records bearing it |
| Reports.NamesMember | app/api/reports/route.ts:102-107 | a name is among them exactly when some record bears it |
| Reports.EntryCounts | app/api/reports/route.ts:101-110 | each map entry has a non-empty name and the number of records bearing it |
| Reports.EntryNames | app/api/reports/route.ts:101-110 | no name has two entries, and every responder name has one |
| Reports.PostUnder | app/api/reports/route.ts:10-159 | no session is 401; a missing or empty date is 400; otherwise a report is generated exactly when both dates give valid times and the store is reachable, and a 500 otherwise; a generated report lists exactly the records in the range and every aggregate in it is computed from that list |
| Reports.GeneratedReportAgrees | app/api/reports/route.ts:42-146 | in a report the route generates, the total, the status and severity counts, the resolved count and the rate in 0..100, the top responders' counts and the period label all agree with the listed records and the `type` |
| Reports.Post | app/api/reports/route.ts:10-159 | the route with the corrected minutes: 401 exactly without a session; a generated report's aggregates come from its list, and its label is that of the rounded mean of `updatedAt` minus `createdAt` over the records with a responder |
| Reports.ChecksBeforeQuery | app/api/reports/route.ts:14-29 | with no session or a missing date, the answer is 401 or 400 whatever the store holds |
| Reports.StatusPartition | app/api/reports/route.ts:45-51 | for records whose status is one of the five, the five status counts add up to the total |
| Reports.SeverityPartition | app/api/reports/route.ts:54-59 | the four severity counts add up to the total |
| Reports.TypeCountsMissPolice | app/api/reports/route.ts:62-69 | the six type keys together with police records add up to the total |
| Reports.ReportStatusCounts | app/api/reports/route.ts:45-51 | each `byStatus` key counts the records with that status name |
| Reports.ReportStatusPartition | app/api/reports/route.ts:45-51 | for records whose status is one of the five, `byStatus` sums to `totalEmergencies` |
| Reports.ReportSeverityAndTypeCounts | app/api/reports/route.ts:54-69 | `bySeverity` sums to the total; `byType.crime` counts flood records, `byType.other` counts ambulance records, and the keys sum to the total less the police records |
| Reports.ReportResolution | app/api/reports/route.ts:73-123 | `resolvedCount` is the resolved records and the rate lies in 0..100 |
| Reports.PeriodLabels | app/api/reports/route.ts:126-133 | `weekly` and `monthly` get their labels and any other type is a custom report |
| Reports.TopRespondersFaithful | app/api/reports/route.ts:109-112 | at most five responders, by non-increasing count, each with its true count and named once |
| Reports.TopRespondersComplete | app/api/reports/route.ts:109-112 | a responder left out has no more records than any listed one, and is left out only when five are listed |
| Reports.TopIsPrefix | app/api/reports/route.ts:111-112 | the first five of a sorted list are its prefix, sorted, and no later entry outranks them |
| Reports.SortedEntries | app/api/reports/route.ts:109-111 | sorting the entries keeps each entry's name and count and every responder's entry |
| Reports.PermutationKeepsNames | app/api/reports/route.ts:109-111 | a permutation of entries with distinct names holds the same entries with distinct names |
| Reports.TotalRespondersDistinct | app/api/reports/route.ts:101-120 | `totalResponders` is the number of distinct non-empty responder names among the records |
| Reports.TotalMinutesNonPositive | app/api/reports/route.ts:79-88 | as written, the total minutes of records updated after creation is at most 0 |
| Reports.TotalMinutesAtLeastOne | app/api/reports/route.ts:79-88 | corrected, records updated at least a minute after creation total at least one minute each |
| Reports.AsWrittenResponseTimeAlwaysNA | app/api/reports/route.ts:81-98 | as written, when records are updated after they are created the average is at most 0 and the label is always `N/A` |
| Reports.CorrectedResponseTimeShown | app/api/reports/route.ts:81-98 | corrected, when every responded record was updated at least a minute after creation the average is at least 1 and a time is shown |
| Reports.TenMinuteResponse | app/api/reports/route.ts:81-98 | one record answered ten minutes after it was reported: `N/A` as written, `10 min` corrected |
| Reports.SingleAverage | app/api/reports/route.ts:79-92 | the average over one responded record is its minutes |
| Text.Lower | components/UserManagement.tsx:90-91 | `toLowerCase` keeps the length, leaves no upper-case letter, moves each upper-case letter to its lower-case partner at the same position and leaves every other character as it was |
| Text.LowerIdempotent | app/hospitals/page.tsx:22-28 | lower-casing twice is lower-casing once |
| Text.ContainsIff | components/UserManagement.tsx:90-92 | `includes` holds exactly when the needle occurs at some position |
| Text.TrimStart | components/UserManagement.tsx:114 | what remains is a suffix, everything cut is white space, and it starts with no white space |
| Text.TrimEnd | components/UserManagement.tsx:114 | what remains is a prefix, everything cut is white space, and it ends with no white space |
| Text.Trim | components/UserManagement.tsx:114-126 | `trim` cuts only white space from both ends and leaves none at either end |
| Text.TrimEmptyIff | components/UserManagement.tsx:114-126 | a string trims to empty exactly when it is all white space |
| Text.TrimTrimmed | app/news/page.tsx:375 | a string with no white space at either end trims to itself |
| Text.TrimLeadingSpace | app/news/page.tsx:354-375 | a space before a string does not change its trimmed form |
| Text.IndexOf | app/news/page.tsx:375 | the first position of a character present in the string |
| Text.Split | app/news/page.tsx:375 | `split(sep)` gives at least one piece, none holding the separator |
| Text.JoinSplit | app/news/page.tsx:375 | joining the pieces of a split with the separator gives the string back |
| Text.SplitJoin | app/news/page.tsx:354-375 | splitting a join of separator-free pieces gives the pieces back |
| Text.EmailShapeIff | components/UserManagement.tsx:120 | the decidable test agrees on every string with the unanchored regular expression `\S+@\S+\.\S+` |
| Decimal.DigitChar | components/ui/use-toast.tsx:19 | the digit character of a value below ten |
| Decimal.NatToString | components/ui/use-toast.tsx:19 | `toString` of a natural: at least one digit, all digits, no leading zero |
| Decimal.ParseNatToString | components/ui/use-toast.tsx:19 | parsing the decimal form gives the number back |
| Decimal.NatToStringInjective | components/ui/use-toast.tsx:17-20 | distinct naturals have distinct decimal forms |
| UserConsole.FilterUsers | components/UserManagement.tsx:84-109 | the shown users are, in order, exactly those accepted by every active filter: the search (case-blind in name and email, plain in phone), the role, and the status (`active` keeps active users, any other value inactive ones) |
| UserConsole.FilterChain | components/UserManagement.tsx:84-109 | the three filters applied one after another are one filter by their conjunction |
| UserConsole.ThirdFilter | components/UserManagement.tsx:102-106 | the status filter after the search and the role is the filter by all three |
| UserConsole.StatusFiltersSplit | components/UserManagement.tsx:102-106 | the `active` and `inactive` views split every list: active users in one, inactive in the other, their sizes adding up to the whole |
| UserConsole.NameError | components/UserManagement.tsx:114-116 | `Name is required` exactly when the name is blank |
| UserConsole.EmailError | components/UserManagement.tsx:118-122 | `Email is required` for a blank email, else `Email is invalid` exactly when the untrimmed text does not match `\S+@\S+\.\S+` |
| UserConsole.PhoneError | components/UserManagement.tsx:124-126 | `Phone is required` exactly when the phone is blank |
| UserConsole.PasswordError | components/UserManagement.tsx:128-132 | `Password is required` for an empty password when creating; `Password must be at least 6 characters` for a non-empty one shorter than six, in every mode |
| UserConsole.ValidateForm | components/UserManagement.tsx:111-136 | the form passes exactly when no error is recorded, which is exactly when name, email and phone are filled, the email has the address shape, and the password has six characters when creating and is empty or has six otherwise |
| UserConsole.StatsOf | components/UserManagement.tsx:311-317 | the counters are the whole list, the active users (never more than the total) and the users of each of the three roles |
| UserConsole.RoleCountersPartition | components/UserManagement.tsx:311-317 | the `system-admin`, `responder` and `user` counters add up to the users with one of those three roles, never more than the total, and to the total when every role is one of the three |
| UserConsole.AdminInNoCounter | components/UserManagement.tsx:311-317 | a user with role `admin`, which the form at lines 587-589 offers, raises the total but none of the three role counters |
| UserConsole.ShowsDelete | components/UserManagement.tsx:492 | a row shows Delete unless it is the signed-in user's own row; with no session user every row shows it |

## Left out

- Rendering, styling, dialogs and navigation are not modelled: only the decisions the components compute are.
- Report export, date formatting and the week or month range computation on the reports page are not modelled; they are library rendering. For the same reason the report's `startDate` and `endDate` fields, the two formatted dates of the period, are not part of the `Report` datatype.
- The Mongo store is not modelled as a database. A collection is a sequence in store order, and a lookup is the first match. Where a member takes a store flag or an `Option` store (`None` when unreachable), a failing store is its error reply.
- A store that is unreachable or throws is not modelled for the members that take a plain sequence: EmergencyRoute.Post, EmergencyRoute.List, NewsRoute.Post, UsersRoute.Post, RegisterRoute.Post, CredentialsAuth.Authorize, GoogleSignIn.SignInUnder and GoogleRoute.PostUnder. For these the source's `catch` reply (500, or a refused sign-in) is not derived.
- Database-generated values are parameters: record ids, `createdAt` and `updatedAt`.
- Clocks are parameters: `Date.now()` and `new Date()` are the `now` argument, and one call uses one clock reading.
- `bcrypt` hashing and comparison, Google ID-token verification and the NextAuth session lookup are parameters (a hash function, a password predicate, a verifier's answer, a session option).
- Mongoose strict mode is not modelled for `googleId` and `image`: the user schema does not declare them, and the model keeps them as fields. It is modelled for `lguCode`: a user save drops it, and reading `user.lguCode` gives `undefined` (in `authorize`, the `jwt` callback and the Google route). Stored users keep an `lguCode` field, which the listings copy; for every user the model creates it is absent.
- The sparse phone index is not modelled: a phone is unique among the users that have one.
- Floating point is not modelled.
  - A parsed coordinate is an `Option<real>` that is `None` for NaN.
  - `Math.round` of a ratio is exact rational rounding, halves up.
  - News query parameters are integers, and a non-numeric `page` or `limit` (NaN) is not modelled.
- EmergencyRoute.List: `limit` is taken as an already parsed integer; `parseInt` yielding NaN for a non-numeric text, or reading only a leading run of digits (`"10abc"` is 10), is not modelled.
- Reports.ResolutionRate: rounds the exact ratio `100 * resolved / total`, not its binary floating-point value. So an exact half whose double product lands just below .5 (23 of 40) rounds up here and down in the source.
- Text.Lower: lower-cases ASCII letters only; JavaScript's full Unicode case mapping is not modelled.
- String lengths count Dafny characters, not UTF-16 code units, so the 200- and 500-character limits and the 6-character password minimum agree with the source only for text in the Basic Multilingual Plane.
- NewsRoute.SearchIgnoresCase: the `$regex` search is modelled as a case-blind literal substring test. Regular-expression metacharacters in the search text are not interpreted.
- NewsModel.Slug: slug uniqueness is not modelled. The unique index would reject two slugs that are equal, which needs two saves at the same millisecond.
- Reports.TopRespondersFaithful: does not state the order among responders with equal counts. The source's stable sort keeps first-occurrence order there.
- Session.Jwt: a sign-in whose token has no email returns the token unchanged, as if no stored user were found. What `findOne({email: undefined})` returns in Mongoose is not modelled.
- The toast removal delay (`setTimeout` of one second) is not modelled; a timeout firing is an explicit `dismiss` of that id. Listeners are identified by value, as `indexOf` compares them.
- Socket transport, connection handling and delivery concurrency are not modelled. The `disconnect` handlers only log; the socket leaving its rooms is socket.io's own doing, which the model includes. The room socket.io gives each socket under its own id is not modelled, since no handler addresses it. Handlers run one at a time.
- `initSocket`'s server options (path, CORS, transports) are not modelled; only whether a server is built and which instance is returned.
- app/api/emergencies/[id]/route.ts (the single-record PATCH and DELETE) is not part of this model. The console's requests are modelled as the requests it sends.
- The users POST reply is modelled as success or failure with the created user. Its password-removal line is commented out, so the reply is not claimed to omit the hash.
- Thin CRUD routes and storage-only schemas (locations, hospitals, places, LGUs, chat messages) are not modelled beyond the hospital list page. They add no decision logic.
- The type declaration files under types/ disagree with the schemas; the schemas are followed.

## Findings

| source | as written | input that shows it | evidently intended | confidence | as-written member | corrected member |
|---|---|---|---|---|---|---|
| lib/auth.ts:76-85 | `signIn` for an unknown Google email calls `create` with no password and no phone, which the user schema requires (models/User.ts:47-48), so the create throws and no account is stored | a first Google sign-in with a name and an email not in the store | the schema makes password and phone optional for accounts with a Google id, so the account is created with role `user` and `isActive` true | not executed | GoogleSignIn.NewGoogleAccountFailsAsWritten | GoogleSignIn.SignIn |
| app/api/auth/google/route.ts:35-46 | the mobile endpoint saves the same password-less, phone-less document, so `save` throws and the catch answers 401 | a verified token for an email not in the store | the first login creates the user and answers 200 with `''` for the missing phone | not executed | GoogleRoute.FirstGoogleLoginFailsAsWritten | GoogleRoute.Post |
| app/api/reports/route.ts:81-84 | `differenceInMinutes(createdAt, updatedAt)` puts the earlier instant first, so every record updated after it was created gives a non-positive number of minutes and the label is always `N/A` | one record with a responder, updated ten minutes after it was created: the label is `N/A` | `differenceInMinutes(updatedAt, createdAt)`, giving `10 min` | not executed | Reports.TenMinuteResponse | Reports.CorrectedResponseTimeShown |
| app/news/page.tsx:607 | Next is disabled only when `page === totalPages`, so when the page is past the page count Next stays enabled | page 3 of 2 pages (after the last article of page 3 is deleted): the pager is still rendered, and every click moves further past the end | disabled when `page >= totalPages` | not executed | NewsPage.NextRunsPastEndAsWritten | NewsPage.NextStopsAtEnd |
