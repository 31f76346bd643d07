# brightmiss profile approval and onboarding, in Dafny

This project models the core of brightmiss, a Next.js and Prisma web application.
Users keep a profile, and five of its fields (first name, last name, phone, address, work place) can be put under an admin gate.
Each of these fields has four columns:

- the live value;
- a pending proposal;
- an `approved` flag;
- a `locked` flag.

The profile also carries an aggregate `changeRequested` flag.

The application acts on this state in three steps:

- A user's PATCH writes an ungated field directly. For a gated field (approved and locked), a changed value is diverted into the pending slot.
- Admins see a queue with one request per non-null pending slot.
- An admin approves the request (the pending value becomes live and the field stays gated) or rejects it (the pending value is dropped). Then `changeRequested` is recomputed.

Around this sits the account lifecycle over a user store with unique e-mail addresses:

- admin invites, with a seven-day token;
- redemption of the token by setting a password;
- self-registration;
- the administrator seed.

The model also covers the pure helpers of the profile edit form and of the profile page.

Layout, one module per file:

- `Wrappers`: `Option` and `Result`.
- `Common`: sessions, JSON values, JavaScript truthiness, replies and the zod field checks.
- `Profiles`: the profile record and the workflow invariant.
- `Db`: the store.
  - The class `Db.Store` has map fields for users, profiles and invite tokens, and the value `Tables` is a snapshot of them.
  - `Insert` is the pure nested create, refused on any unique-constraint violation.
- One module per route or page:
  - `ProfileRoute`
  - `ProfileRequestsRoute`
  - `SetPasswordRoute`
  - `InviteRoute`
  - `RegisterRoute`
  - `Seed`
  - `ProfileEditPage`
  - `ProfilePage`
- `Workflow`: any interleaving of user PATCH requests and admin decisions on one profile.
- `Onboarding`: the invite followed by its redemption.

The route handlers are module-level methods that take the `Store` as a parameter. Each one states the reply and the new store contents for every branch. Each one is specified by pure functions, and the properties of those functions are proved as lemmas.

Hashing (bcrypt), token generation (`randomBytes`), the clock, the store's id generator, zod's e-mail check and the environment are parameters of the methods:

- `hash`
- `token`
- `now`, in milliseconds
- `newId`
- `isEmail`
- `siteUrl` and `Env`

A request body that is not JSON is `None`.

Three behaviours of the code are worth knowing:

- **Approving a field twice.** A second approval copies the already-null pending slot into the live column, so it nulls the live value. `ProfileRequestsRoute.ApproveTwiceClearsValue` states this.
- **Duplicate e-mail addresses.** A duplicate address gets 400 from the pre-check in both the invite and the register route. When the store refuses the insert, register answers 409 and invite answers 500.
- **The approval message.** It is built as `"Request " + action + "ed successfully"`, so approval replies "Request approveed successfully", as the code spells it.

## Model

| member | source | states |
|---|---|---|
| ProfileRoute.ParseWith | app/api/profile/route.ts:6-45 | the schema parse keeps exactly the sent schema keys of the right type; an unexpected type of a known key rejects the body, and unknown keys are dropped |
| ProfileRoute.ParseEncode | app/api/profile/route.ts:6-45 | every well-typed payload survives encoding as a JSON body and parsing back unchanged |
| ProfileRoute.ResolveSlot | app/api/profile/route.ts:88-107 | flags are never touched; an absent value changes nothing; pending is written only under the gate and only with a value different from the live one; the live value is written only when not gated |
| ProfileRoute.HandleFieldUpdate | app/api/profile/route.ts:88-107 | the helper adds a direct update when the field is not gated, or adds a pending update and raises the request flag when it is gated and the value differs; otherwise it changes nothing |
| ProfileRoute.ResolvePatch | app/api/profile/route.ts:110-183 | the five calls and the copy of the other columns: the merged write equals `Patched`, the request flag is true iff some field was diverted, and with no updates the profile is unchanged |
| ProfileRoute.PatchedSlot | app/api/profile/route.ts:110-148 | each lockable field is resolved independently of the others |
| ProfileRoute.PatchOtherColumns | app/api/profile/route.ts:151-183 | a non-lockable column is copied iff sent; unsent columns keep their stored value |
| ProfileRoute.PatchKeepsFlags | app/api/profile/route.ts:186-194 | a PATCH resets no approved or locked flag; the stored `changeRequested` becomes old flag or request flag, so it is never cleared |
| ProfileRoute.PatchKeepsInvariant | app/api/profile/route.ts:88-194 | a PATCH keeps "pending only under the gate" and "`changeRequested` iff some pending slot is set" |
| ProfileRoute.PatchProfile | app/api/profile/route.ts:65-208 | 401 without a signed-in user, 500 for a body that is not JSON or fails the schema, 404 without a profile, each with no write; otherwise the profile becomes `Patched` and the reply carries the request flag |
| ProfileRequestsRoute.EntriesUpToMembership | app/api/admin/profile-requests/route.ts:57-79 | the inner loop yields an entry for exactly the fields with a non-null pending slot |
| ProfileRequestsRoute.EntriesUpToOrdered | app/api/admin/profile-requests/route.ts:49-79 | a row's entries come in the order firstName, lastName, phone, address, workPlace |
| ProfileRequestsRoute.QueueSound | app/api/admin/profile-requests/route.ts:47-81 | every queue entry is the entry of some scanned row and some field whose pending slot is set |
| ProfileRequestsRoute.QueueComplete | app/api/admin/profile-requests/route.ts:47-81 | every scanned row's non-null pending slot appears in the queue |
| ProfileRequestsRoute.QueueMembership | app/api/admin/profile-requests/route.ts:47-81 | the flattened queue holds an entry for each scanned row and non-null pending field, and nothing else |
| ProfileRequestsRoute.QueueUserIds | app/api/admin/profile-requests/route.ts:66-76 | every entry belongs to one of the scanned rows |
| ProfileRequestsRoute.QueueUnique | app/api/admin/profile-requests/route.ts:47-81 | rows of distinct users yield no request twice |
| ProfileRequestsRoute.QueueShowsAllPending | app/api/admin/profile-requests/route.ts:24-81 | under the workflow invariant, the `changeRequested` filter drops nothing: the queue lists every non-null pending slot of every stored profile, with requestId user id + "-" + field, old value live, new value pending |
| ProfileRequestsRoute.ScanStep | app/api/admin/profile-requests/route.ts:24-44 | visiting one more stored profile keeps the scan's invariant |
| ProfileRequestsRoute.ScanProfiles | app/api/admin/profile-requests/route.ts:24-44 | the scan returns each stored profile with `changeRequested` and some non-null pending slot once, with its user |
| ProfileRequestsRoute.RequestsOfRow | app/api/admin/profile-requests/route.ts:47-80 | the inner `for` loop computes the row's entries |
| ProfileRequestsRoute.GetProfileRequests | app/api/admin/profile-requests/route.ts:15-91 | non-admins get 401; admins get the flattened queue of the scanned rows; nothing is written |
| ProfileRequestsRoute.FieldNamed | app/api/admin/profile-requests/route.ts:9 | the enum accepts exactly the five field names |
| ProfileRequestsRoute.ActionNamed | app/api/admin/profile-requests/route.ts:10 | the enum accepts exactly "approve" and "reject" |
| ProfileRequestsRoute.ParseDecision | app/api/admin/profile-requests/route.ts:7-12 | a valid decision carries the sent userId, field and action; a field name outside the five is refused as an invalid enum value; an object with a string userId, one of the five field names, "approve" or "reject" and an absent or string comment parses to exactly that decision |
| ProfileRequestsRoute.ApplyAction | app/api/admin/profile-requests/route.ts:127-146 | approve sets live := pending (null included), both flags true and pending null; reject only clears pending; other fields are untouched |
| ProfileRequestsRoute.DecisionFlag | app/api/admin/profile-requests/route.ts:148-170 | after a decision `changeRequested` is old flag and some pending remains: it is only ever cleared here, and the decided field has no pending value |
| ProfileRequestsRoute.DecisionKeepsInvariant | app/api/admin/profile-requests/route.ts:127-170 | a decision keeps the workflow invariant |
| ProfileRequestsRoute.DecisionKeepsFlags | app/api/admin/profile-requests/route.ts:127-146 | a decision resets no approved or locked flag |
| ProfileRequestsRoute.ApproveTwiceClearsValue | app/api/admin/profile-requests/route.ts:129-134 | a second approval of the same field leaves the live value null |
| ProfileRequestsRoute.ApplyRequest | app/api/admin/profile-requests/route.ts:113-172 | an unknown profile gives 404 with no write; otherwise the decision's write and then the flag write leave the profile as `ApplyDecision`, and the reply names the action |
| ProfileRequestsRoute.DecideRequest | app/api/admin/profile-requests/route.ts:94-180 | 401 for non-admins, 500 for a body that is not JSON, 400 with the first schema issue, 404 for an unknown profile, all without a write; otherwise the profile becomes `ApplyDecision` and the reply names the action |
| Profiles.AnyPending | app/api/admin/profile-requests/route.ts:149-162 | "some pending slot is set" over the five pending columns |
| Profiles.EmptyProfileInvariant | app/api/auth/register/route.ts:49-51 | a freshly created profile satisfies the workflow invariant |
| Profiles.FlagsKeptTransitive | app/api/admin/profile-requests/route.ts:129-134 | flag monotonicity composes across steps |
| Workflow.RunKeepsInvariant | app/api/profile/route.ts:88-194 | over any sequence of PATCH requests and decisions, pending stays behind the gate and `changeRequested` stays equal to "some pending slot is set" |
| Workflow.RunKeepsFlags | app/api/admin/profile-requests/route.ts:127-170 | over any sequence of PATCH requests and decisions, no approved or locked flag is reset |
| Workflow.GatedValueNeedsApproval | app/api/profile/route.ts:97-102 | once gated, a field's live value changes only through an admin approval of that field, and it stays gated |
| Db.TakenEmailHasOneOwner | prisma/seed.ts:12-19 | under the unique constraint, an address that is taken belongs to exactly one user |
| Db.Insert | app/api/admin/invite/route.ts:53-73 | the nested create is accepted iff the id, the address and the token string are all new |
| Db.InsertKeepsValid | app/api/auth/register/route.ts:43-56 | an accepted create keeps the store's constraints, makes the new user the sole holder of its address, and gives it exactly the token created with it |
| Db.InsertKeepsRows | app/api/admin/invite/route.ts:53-73 | an accepted create leaves every earlier user, profile and token row as it was |
| Db.AddUserKeepsUnique | app/api/auth/register/route.ts:28-56 | a user with a fresh id and an address nobody holds keeps addresses unique and is the address's only holder |
| Db.AddTokenOwned | app/api/admin/invite/route.ts:53-73 | the token created with a new user is the only token it owns, and every token still has a stored owner |
| Db.ReplaceProfileKeepsValid | app/api/profile/route.ts:187-194 | replacing a stored profile by one that keeps the workflow invariant keeps the store valid |
| Db.Store.CreateUser | app/api/auth/register/route.ts:43-56 | the store's create applies `Insert`, or changes nothing when refused |
| Db.Store.UpdateProfile | app/api/profile/route.ts:187-194 | the profile update replaces one stored profile and nothing else |
| Common.TextField | app/api/admin/profile-requests/route.ts:8 | a required `z.string()` key: missing is "Required", a non-string is refused, a string is returned |
| Common.MinText | app/api/auth/register/route.ts:8-10 | `z.string().min(n, message)`: succeeds iff the key holds a string of at least n UTF-16 code units, else the message |
| Common.JsLength | app/api/auth/register/route.ts:8-10 | JavaScript's string length, which `min` compares: between one and two code units per character |
| Common.JsLengthIsSize | app/api/auth/register/route.ts:8-10 | the code-unit length equals the character count exactly when no character lies above U+FFFF |
| Common.EmailText | app/api/auth/register/route.ts:9 | `z.string().email(message)`: succeeds iff the key holds a string the address check accepts |
| Common.OrElse | prisma/seed.ts:7-9 | `value || fallback`: null and "" both give the fallback |
| SetPasswordRoute.ParseForm | app/api/auth/set-password/route.ts:6-21 | a non-empty token and a password of at least 6 characters; "" as token gives "Token is required", a short password its message |
| SetPasswordRoute.Guard | app/api/auth/set-password/route.ts:26-52 | unknown, then used, then expired: a used token is refused as used whatever its expiry, and a token is still good at exactly `expiresAt` |
| SetPasswordRoute.Redeem | app/api/auth/set-password/route.ts:26-70 | on success the owner gets the password hash and loses the invited flag, the token is marked used, and nothing else changes |
| SetPasswordRoute.RedeemKeepsValid | app/api/auth/set-password/route.ts:58-70 | the redemption keeps the store's constraints |
| SetPasswordRoute.ReplayFails | app/api/auth/set-password/route.ts:39-44 | replaying a redeemed token fails with "already used" |
| SetPasswordRoute.SetPassword | app/api/auth/set-password/route.ts:11-83 | 500 for a body that is not JSON, 400 on a schema failure before any lookup, the guard's refusal with no write; otherwise the store holds the redeemed tables |
| InviteRoute.ParseInvite | app/api/admin/invite/route.ts:7-10 | a name of at least 2 characters, then a valid address, each with its message |
| InviteRoute.InviteUrl | app/api/admin/invite/route.ts:76 | the link is the site URL ("undefined" when unset), then "/invite/", then the raw token |
| InviteRoute.Invite | app/api/admin/invite/route.ts:13-95 | 401 then 403 before the body is read, 500 for a body that is not JSON, 400 for a schema failure or a taken address, all without a write; on success one SUB user with no password, invited, an empty profile and exactly one unused token expiring 7·24·60·60·1000 ms later; the reply holds id, name, email and role only |
| Onboarding.InviteThenRedeem | app/api/auth/set-password/route.ts:47-52 | a fresh invite can be redeemed up to and including seven days after issue and is refused as expired afterwards |
| Onboarding.RedeemOnce | app/api/auth/set-password/route.ts:39-69 | after one redemption the token is used, the user is no longer invited, and a second redemption is refused |
| RegisterRoute.ParseRegister | app/api/auth/register/route.ts:7-23 | name, then address, then password, the first failing one's message |
| RegisterRoute.Register | app/api/auth/register/route.ts:13-85 | 500 for a body that is not JSON, 400 for a schema failure or a taken address, 409 when the store refuses the insert, all without a write; 201 with a SUB user holding the password hash, not invited, with an empty profile, sole holder of its address; the reply holds id, name, email and role only |
| Seed.AdminUser | prisma/seed.ts:7-31 | address, name and password fall back to the fixed defaults when unset or empty; the stored password is the hash; the account has the given id, role ADMIN and is not invited |
| Seed.AdminProfile | prisma/seed.ts:31-36 | the administrator's profile has first name "Admin" and last name "User" and satisfies the workflow invariant |
| Seed.SeedKeepsValid | prisma/seed.ts:12-41 | the seed keeps the store's constraints |
| Seed.SeedCreatesAdmin | prisma/seed.ts:22-41 | on a store without the address, exactly the administrator and its profile are added, and the administrator becomes the address's only holder |
| Seed.SeedTwice | prisma/seed.ts:12-41 | running the seed again changes nothing and leaves exactly one user with the address |
| Seed.RunSeed | prisma/seed.ts:6-44 | the seed's `main` ends with the store described by `Seeded`; it reports "already exists" iff the address was taken |
| ProfileEditPage.IsFieldLocked | app/profile/edit/page.tsx:230-239 | false while no profile is loaded and for names without both flag columns; otherwise both flags truthy |
| ProfileEditPage.FlagColumns | app/api/profile/route.ts:53-57 | the row the form loads holds each field's approved and locked flags under `<field>Approved` and `<field>Locked` |
| ProfileEditPage.LockMatchesGate | app/profile/edit/page.tsx:230-239 | the predicate that shows the "Locked" badge equals the server's gate, approved and locked, on the loaded row |
| ProfileEditPage.ValueColumn | app/profile/edit/page.tsx:144-183 | the loaded row's column named after a lockable field holds that field's live value |
| ProfileEditPage.NullGatedFieldResent | app/profile/edit/page.tsx:144-239 | a gated field with a null live value shows the badge and loads as ""; the inputs stay editable, so the form re-sends "" and the server diverts it into the pending slot |
| ProfileEditPage.LoadForm | app/profile/edit/page.tsx:144-183 | the form state has exactly the five lockable keys and the other schema keys |
| ProfileEditPage.LoadNormalises | app/profile/edit/page.tsx:144-183 | a null or missing column becomes "" for text and [] for a list; a set column is kept |
| ProfileEditPage.SubmittedDate | app/profile/edit/page.tsx:205 | an empty date of birth is submitted as null, a set one as its ISO timestamp |
| ProfileEditPage.SubmitBody | app/profile/edit/page.tsx:203-206 | the PATCH body is the form state with only the date of birth replaced |
| ProfileEditPage.UnsetDateSubmitsNull | app/profile/edit/page.tsx:147 | a profile without a date of birth is sent back with null, never "" |
| ProfileEditPage.AddRecord | app/profile/edit/page.tsx:241-246 | one blank record is appended and the existing entries are untouched |
| ProfileEditPage.SpliceStart | app/profile/edit/page.tsx:248-252 | `splice` counts a negative index from the end, clamped at 0 |
| ProfileEditPage.RemoveAt | app/profile/edit/page.tsx:248-252 | exactly the element at the splice position is removed and the order of the rest is kept; past the end nothing changes |
| ProfileEditPage.RemoveUndoesAdd | app/profile/edit/page.tsx:241-252 | removing the record just added gives back the list |
| ProfileEditPage.UpdateAt | app/profile/edit/page.tsx:254-258 | only key k of record i changes; other records and keys are unchanged |
| ProfileEditPage.RemoveDiscardsUpdate | app/profile/edit/page.tsx:248-258 | removing an edited row discards the edit with it |
| ProfilePage.DisplayName | app/profile/page.tsx:91-93 | when either name is set: first name, one space, last name (each "" when unset); otherwise the account name |
| ProfilePage.Part | app/profile/page.tsx:137-139 | a JSX `value && text` part: the text iff the value is set |
| ProfilePage.AddressLine | app/profile/page.tsx:132-141 | the address row exists iff the address is set; it is the address, then ", city", then " postalCode", then ", country", each part only when set |
| ProfilePage.Row | app/profile/page.tsx:108-131 | a conditional row is shown iff its value is truthy |
| ProfilePage.Render | app/profile/page.tsx:6-150 | no signed-in user or a user missing from the store redirects to /login; every other user gets the card, with the Admin link iff the session's role is ADMIN; without a profile the card shows the account name and no optional row |
| ProfilePage.CardRows | app/profile/page.tsx:91-141 | each optional row is shown exactly when its column is set; the name falls back to the account name only when neither name is set |

## Left out

- All rendering, toasts, router pushes, upload buttons and React effects. The upload service configuration and the middleware are also left out, because both of the middleware's branches let the request through.
- Concurrency and atomicity. The approval write and the `changeRequested` recomputation are two store calls, modelled one after the other. The set-password transaction is modelled as two writes in one method, with no crash in between.
- bcrypt, `randomBytes`, the clock, the store's id generator, zod's e-mail check and `process.env` are parameters. Uniqueness of generated ids and tokens is not assumed: a collision is the store's unique-constraint refusal.
- Zod's messages for type errors are simplified to "Required", "Expected string", "Expected object" and "Invalid enum value"; the custom messages are exact.
- Date formatting (`toISOString`, `toLocaleDateString`) is a parameter.
- The register route's 500 for a database connection error (`PrismaClientInitializationError`) is not modelled, because the in-memory store has no connection. A body that is not JSON does take the generic 500 path.
- The invite token's record id is not modelled; tokens are keyed by their unique token string.
- ProfileEditPage.UpdateAt: an index beyond the list is not modelled, because the form only passes indices of rendered rows. In JavaScript such an index would leave holes in the array.
- ProfileEditPage.FormValue: a truthy date of birth that is not a string is loaded as "". A date column cannot hold such a value.
- The users list route (`app/api/admin/users`) is not part of this model. The GET of `/api/profile` appears only as the JSON row the edit form loads (`ProfileEditPage.ProfileJson`).
- The JSON envelopes of the replies (`{ requests }`, `{ success, changeRequested }`, `{ error }`) are reduced to the carried value or message.
