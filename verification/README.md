# Irrig'Ai web back end: a Dafny model of its account lifecycle, zone admission and farm selector

Irrig'Ai is a farm-management web application. Owners buy an account, an administrator
approves it, and owners then register farms and divide them into irrigation zones. This
project models the part of the application that holds real logic, once the database,
bcrypt and cookies are treated as abstract:

- **Account lifecycle.** A purchase request creates an `OWNER` user in state `INVITED` and a
  `PENDING` request. The administrator either approves it, which sets `APPROVED` and makes
  the user `ACTIVE`, or rejects it, which deletes both documents. Login refuses an owner
  that is not `ACTIVE`. Before every login, the fixed superadmin account is upserted.
- **Zone area admission** (`checkZoneArea`): a new zone is admitted when the areas of the
  farm's zones plus its own area stay within the farm's `longueur * largeur`.
- **Farm ownership scoping** in the farms API.
- **The owner console's farm selector**: the farm id read from the URL, the fallback to the
  first farm, the navigation list and the highlighted entry.

The store is the `Store.Db` datatype. It holds the four collections as sequences in
insertion order, plus a counter that hands out fresh identifiers. `findOne` and `findById`
return the first match, as `Seqs.IndexOf` specifies. Each handler is a pure function
`(store, input) -> Reply`, where a reply is the HTTP response plus the store afterwards.
Each request is one atomic step. `Lifecycle.Step` and `Lifecycle.Run` chain handlers over a
sequence of requests.

`Store.Valid` is the store invariant. It says that user emails are unique (the schema's
unique index), user, request and farm identifiers are unique, and required user and request strings are non-empty.
Every handler preserves it (`Lifecycle.StepValid`). So every store reachable from an empty
database has unique emails (`Lifecycle.ReachableEmailsDistinct`).

The administrator's email is open to registration. While no account holds
`admin@yourdomain.com`, a purchase request for that email is accepted like any other and
creates an `INVITED` owner. The next login, for any email, runs the superadmin upsert. The
upsert finds that owner, gives it the fixed password and the superadmin role, and keeps its
`INVITED` status. From then on `admin123` logs in to it. The registration password does not,
unless it happens to derive the same bcrypt key (`Lifecycle.AdminEmailRegistrationTakenOver`). For the same reason, a rejected request for
that email does not make the email unknown: the next login recreates the administrator. The
three lifecycle lemmas about a registered owner therefore exclude the administrator's email.

Abstractions:

- A bcrypt digest, `Models.PasswordHash`, remembers its plaintext. `compare`, which `Models.Matches` models, succeeds exactly
  when both passwords derive the same Blowfish key (`Models.BcryptKey`): the UTF-8 bytes and
  a NUL, repeated to fill 72 bytes. So only the first 72 bytes of a long password count
  (`Models.LongPasswordsMatch`), and `pw + "\0" + pw` matches `pw` (`Models.RepeatedPasswordMatches`).
  For example, `admin123\0admin123` logs in as the administrator (`Auth.AdminPasswordRepeatedLogsIn`).
  The random salts are parameters.
- The password that `Math.random` generates is a parameter of the purchase handler.
- The decoded session cookie is an `Option<Id>`. A missing, malformed or empty session is `None`.
- Areas and dimensions are unbounded reals, with no floating-point rounding.

Modules: `Common` (option, result, JavaScript truthiness), `Seqs` (store queries),
`Models` (schemas), `Store`, `ZoneArea`, `SuperAdmin`, `PurchaseRequestApi`, `AdminRequests`,
`Auth`, `FarmsApi`, `OwnerLayout` and `Lifecycle`.

## Model

| member | source | states |
|---|---|---|
| Models.InitialStatus | models/User.js:11 | a new user without an explicit status gets `ACTIVE`; an explicit status is kept |
| Models.NewZone | models/Zone.js:3-14 | a zone document exists iff `name`, `width` and `length` are given; `x`/`y` default to 0, `mode` to `AUTO`, `moisture_threshold` is optional and unconstrained |
| Seqs.IndexOf | app/api/auth/route.ts:11 | a lookup returns the first position holding the key, or nothing exactly when no element holds it |
| Seqs.RemoveAtKey | app/api/admin/requests/route.ts:31-32 | with unique keys, deleting by id removes exactly the documents with that key and keeps all others |
| Seqs.Filter | app/api/admin/requests/route.ts:8 | a query returns exactly the matching documents and never more documents than are stored |
| Seqs.FilterSnoc | app/api/admin/requests/route.ts:8 | a query keeps the store's order: a document added last is returned last if it matches |
| Seqs.FilterMultiset | app/api/admin/requests/route.ts:8 | a query returns each matching document as often as it is stored, and no other document |
| ZoneArea.CheckZoneArea | lib/checkZoneArea.ts:5-17 | an unknown farm gives "Farm not found"; otherwise the candidate is admitted iff the area of the farm's zones plus the candidate is at most `longueur*largeur`, so an exact fill is admitted |
| ZoneArea.UsedAreaIsOccupied | lib/checkZoneArea.ts:11-12 | query-then-`reduce` computes the reference sum over the store, where only the farm's own zones contribute |
| ZoneArea.SumAreasPermutation | lib/checkZoneArea.ts:12 | the `reduce` gives the same total for any ordering of the same zones |
| ZoneArea.ZoneOrderIrrelevant | lib/checkZoneArea.ts:11-13 | the decision does not depend on the order in which zones are stored |
| ZoneArea.ForeignZoneIrrelevant | lib/checkZoneArea.ts:11-12 | inserting another farm's zone anywhere in the store leaves the decision unchanged |
| ZoneArea.AdmissionMonotone | lib/checkZoneArea.ts:13 | if a candidate area is refused, every larger area is refused |
| ZoneArea.EmptyFarmAdmission | lib/checkZoneArea.ts:12-16 | with no zones in the farm, a candidate is admitted iff it is at most the farm's area |
| ZoneArea.AdmittedZoneFits | lib/checkZoneArea.ts:13-16 | a zone stored after being admitted keeps the farm's occupied area within the farm's area |
| SuperAdmin.EnsureSuperAdmin | lib/ensureSuperAdmin.ts:5-27 | afterwards the account found for `admin@yourdomain.com` is a superadmin whose digest was made from `admin123`; if absent, exactly one `ACTIVE` user is appended; if present, only its hash and role change; the other collections are untouched |
| SuperAdmin.OtherUsersUnchanged | lib/ensureSuperAdmin.ts:9-24 | every user with another email is left exactly as it was |
| SuperAdmin.EnsureSuperAdminValid | lib/ensureSuperAdmin.ts:9-19 | the upsert never duplicates an email or an id |
| PurchaseRequestApi.ChosenPassword | app/api/purchase-request/route.ts:19-22 | an empty or missing password is replaced by the generated one; a given password is used as is |
| PurchaseRequestApi.Post | app/api/purchase-request/route.ts:13-66 | checks run in order: missing contact fields give 400 "Invalid input", a confirmation differing from a non-empty password gives 400 "Passwords do not match", an existing email gives 409; each leaves the store unchanged; success appends exactly one `OWNER`/`INVITED` user with the caller's data and a matching hash, and one `PENDING` request pointing to it |
| PurchaseRequestApi.PostValid | app/api/purchase-request/route.ts:31-50 | user emails stay pairwise distinct after any call |
| AdminRequests.Get | app/api/admin/requests/route.ts:6-10 | the listing holds exactly the `PENDING` requests, each with the user its reference resolves to |
| AdminRequests.ApprovedUser | app/api/admin/requests/route.ts:24-27 | approval sets `ACTIVE` and fills name, phone and company from the request only where the user's own value is empty; a present value is kept |
| AdminRequests.Post | app/api/admin/requests/route.ts:12-37 | unknown request gives 404 "Request not found", missing user gives 404 "User not found", and both lookups precede the action check; approve marks `APPROVED` and activates the user; reject deletes both; any other action gives 400 "Invalid action" with no change |
| AdminRequests.NeverRejects | app/api/admin/requests/route.ts:20-36 | no action ever makes a request `REJECTED`: every rejected request afterwards was already stored before |
| AdminRequests.ApprovedUserStable | app/api/admin/requests/route.ts:24-27 | filling the user from the same request data a second time keeps the first result, because every filled field is then present |
| AdminRequests.ApproveIdempotent | app/api/admin/requests/route.ts:20-28 | approving twice gives the same store as approving once |
| AdminRequests.RejectRemovesBoth | app/api/admin/requests/route.ts:30-33 | rejection removes exactly the request and its user, whatever their status, and keeps every other document |
| AdminRequests.PostValid | app/api/admin/requests/route.ts:20-33 | approving or rejecting keeps emails and ids unique |
| Auth.Login | app/api/auth/route.ts:7-21 | the superadmin upsert runs first; unknown email gives 404, wrong password 401, an `OWNER` not `ACTIVE` 403; `WORKER` and `superadmin` are not gated; success returns email, role, status, full name and id of the found user |
| Auth.AdminAlwaysLogsIn | app/api/auth/route.ts:9-20 | `admin@yourdomain.com` with `admin123` always logs in, whatever the store held |
| Auth.LoginKeepsStatuses | app/api/auth/route.ts:9-20 | a login changes no user's status |
| FarmsApi.Get | app/api/dashboard/farms/route.ts:5-21 | without a session the list is empty; otherwise it holds exactly the farms owned by the session user |
| FarmsApi.Post | app/api/dashboard/farms/route.ts:23-40 | no session gives 401 "Not authenticated" and creates nothing; a missing required field creates nothing; otherwise exactly one farm is appended, owned by the session user whatever owner the body names |
| FarmsApi.Put | app/api/dashboard/farms/route.ts:42-48 | updates name and location of the first farm with that id for any caller: a field left out keeps its value, an explicit `null` clears it, a given value replaces it; an unknown id replies `null` and changes nothing |
| FarmsApi.EmptyPutChangesNothing | app/api/dashboard/farms/route.ts:46-47 | an update naming no field leaves the store as it was and replies with the stored farm, or `null` |
| FarmsApi.Delete | app/api/dashboard/farms/route.ts:50-56 | removes the farm with that id for any caller; zones, users and requests stay; always success |
| FarmsApi.DeleteExactlyOne | app/api/dashboard/farms/route.ts:54 | under unique ids, exactly the named farm disappears and every other farm stays |
| FarmsApi.CreatedFarmIsScoped | app/api/dashboard/farms/route.ts:17-38 | a farm created for a session is listed for that session and for no other |
| FarmsApi.FarmOpsValid | app/api/dashboard/farms/route.ts:38-54 | creating, updating and deleting farms keep ids unique |
| OwnerLayout.Segment | app/owner/layout.tsx:43 | the capture is the longest `/`-free prefix: it ends at the first `/` or at the end |
| OwnerLayout.FirstMatch | app/owner/layout.tsx:43 | the regular expression matches at the leftmost position where `/owner/farms/` is followed by a non-`/` character |
| OwnerLayout.FarmIdFromPath | app/owner/layout.tsx:43-44 | there is an id iff the pattern matches somewhere; the id is non-empty, `/`-free, follows the leftmost match of the prefix and runs to the next `/` or the end |
| OwnerLayout.FarmIdRoundTrip | app/owner/layout.tsx:43-44 | a path made of the prefix, a `/`-free id and a rest that is empty or starts with `/` yields exactly that id |
| OwnerLayout.FarmIdFromUrl | app/owner/layout.tsx:42-45 | the URL's id wins; with no match the first farm's id is used; with no farms the result is null |
| OwnerLayout.SyncCurrentFarmId | app/owner/layout.tsx:47-53 | the selected id follows the URL-derived id whenever that is truthy and is otherwise kept |
| OwnerLayout.CurrentFarm | app/owner/layout.tsx:55 | the first farm with the current id, otherwise the first farm, and nothing only when there are no farms |
| OwnerLayout.Nav | app/owner/layout.tsx:57-67 | empty without a truthy current id; otherwise nine entries, Overview to Settings in order, each href starting with `/owner/farms/{id}` |
| OwnerLayout.NavHrefsDistinct | app/owner/layout.tsx:57-67 | the nine hrefs are pairwise different |
| OwnerLayout.ActiveEntryOfOwnPage | app/owner/layout.tsx:142 | on any section page of a farm, exactly that section's entry is highlighted (`OwnerLayout.IsActive`: the pathname equals its href), and the list belongs to the farm the URL names |
| OwnerLayout.OnFarmChange | app/owner/layout.tsx:69-72 | choosing a farm selects its id and pushes `/owner/farms/{id}` |
| OwnerLayout.OnFarmChangeNamesFarm | app/owner/layout.tsx:43-44 | for a `/`-free id, the pushed path names the chosen farm again, so the id read back from the URL is the one just selected |
| Models.LongPasswordsMatch | app/api/auth/route.ts:13 | for passwords of at least 72 UTF-8 bytes, `compare` succeeds exactly when the first 72 bytes agree |
| Models.RepeatedPasswordMatches | app/api/auth/route.ts:13 | a password, a NUL and the password again is a different string that `compare` accepts against the password's digest |
| Auth.AdminPasswordRepeatedLogsIn | app/api/auth/route.ts:13-20 | `admin123\0admin123` logs in as the administrator from any store |
| Lifecycle.RegisterActivatesNobody | app/api/purchase-request/route.ts:41-50 | a registration leaves every stored account as it was, and every account it adds is `INVITED` |
| Lifecycle.LoginActivatesNobody | lib/ensureSuperAdmin.ts:9-24 | the administrator upsert at login changes no existing account's status, and an account it adds has an id no existing account has |
| Lifecycle.ReviewActivatesOnlyItsUser | app/api/admin/requests/route.ts:15-33 | every account that remains after a review is unchanged except, on approve, the account the request references |
| Lifecycle.OnlyApproveActivates | app/api/admin/requests/route.ts:20-28 | an account that was not `ACTIVE` becomes `ACTIVE` in one request only if that request approved a purchase request referencing that account; registrations, other reviews, logins and farm changes never activate anyone |
| Lifecycle.RejectForgetsEmail | app/api/admin/requests/route.ts:30-33 | rejecting a freshly registered owner leaves no account with that email |
| Lifecycle.UpsertKeepsUnknown | lib/ensureSuperAdmin.ts:9-24 | the administrator upsert creates no account under any other email |
| Lifecycle.StepValid | app/api/purchase-request/route.ts:31-35 | every modelled handler preserves the store invariant (unique emails and ids) |
| Lifecycle.RunValid | app/api/purchase-request/route.ts:31-35 | any sequence of requests preserves the store invariant |
| Lifecycle.ReachableEmailsDistinct | models/User.js:4 | every store reachable from an empty database has pairwise distinct user emails |
| Lifecycle.LoginFinds | app/api/auth/route.ts:9-11 | for any non-admin email, login finds the same account before and after the superadmin upsert |
| Lifecycle.InvitedOwnerRefused | app/api/auth/route.ts:16-18 | for any email other than the administrator's, a freshly registered (`INVITED`) owner cannot log in with any password, and gets 403 with the right one |
| Lifecycle.ApprovedOwnerLogsIn | app/api/admin/requests/route.ts:20-29 | for any email other than the administrator's, after registration and approval, the owner logs in with the registration password as an `ACTIVE` `OWNER` |
| Lifecycle.RejectedOwnerUnknown | app/api/admin/requests/route.ts:30-33 | for any email other than the administrator's, after registration and rejection, a login for that email gets 404 "User not found" |
| Lifecycle.AdminEmailRegistrationTakenOver | lib/ensureSuperAdmin.ts:9-24 | a registration for the administrator's email, made before that account exists, succeeds; the next login turns it into the superadmin with `admin123`, still `INVITED`, and a registration password whose bcrypt key differs from that of `admin123` then gets 401 |

## Left out

- Database connection, Mongoose queries, `console.log` and the `catch` that turns a thrown error into a 500 in the purchase handler. The store is an in-memory value, and each request is one atomic step.
- Concurrency: two requests that both pass the duplicate-email check, or both pass `checkZoneArea`, before either writes. The model has no interleavings.
- bcrypt: the digest keeps its plaintext, and `compare` is modelled by the Blowfish key both sides derive. Salts, the cost factor and the `Math.random` generated password are inputs or omitted.
- Models.Matches: assumes hash versions `2a`/`2b`, whose key ends in a NUL byte. A JavaScript string holding an unpaired surrogate has no counterpart, because a Dafny `char` is a Unicode scalar value.
- `created_at` timestamps in every schema, because they come from the clock.
- JSON decoding of the session cookie, and reading `document.cookie` for the user's display name. The session is already decoded to an `Option<Id>`.
- Mongoose casting of malformed ids and non-numeric dimensions. Ids and numbers arrive typed.
- Auth.Login: a body without `email` or `password` is not modelled. Both arrive as strings.
- FarmsApi.Put: `area_hectare` and `cropType` are dropped, because they are not Farm schema fields. An update may leave a farm with an empty or `null` name, since updates skip schema validation; `Models.Farm` therefore holds an optional name. For that reason farm names are not part of `Store.Valid`.
- FarmsApi.Post: the uncaught validation error is modelled as a 500 reply with no change. Its body is `Store.ServerError`, because the framework writes the error page and the handler sends no message.
- Zone creation (the zones route) is not part of this model. `Models.NewZone` models only the Zone schema's defaults.
- The rendering of every page and layout, including the React state timing of the farm selector. `OwnerLayout.SyncCurrentFarmId` models the effect that synchronises the selected id, not the render in which it runs.
- Routes and schemas outside this core: the weather proxy, the mobile users passthrough, trees, workers, tasks, robots, missions and invitations. The standalone admin scripts and the middleware no-op are also out.
- Number representation: areas are unbounded reals, not IEEE doubles.
