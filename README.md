# Debt tracker backend: handlers, authentication and authorization

A Dafny model of the request-handling core of a small Express/Mongoose service
that keeps user accounts and the debts recorded against them. Users register and
log in (bcrypt-hashed passwords, JWT bearer tokens); admins create, edit and delete
debts; a user may read their own debts and mark them `pendente`, `agendado` or
`pago`; a user or an admin may update or delete an account, and deleting an
account deletes its debts.

The model has three layers:

- **Schemas** (`Models`): the `User` and `Debt` documents, with `role` and
  `status` as closed datatypes. It includes the casts Mongoose applies to those
  enum paths (defaults `cliente` and `pendente`; an unknown value fails
  validation) and the required and unique constraints. A bcrypt hash is a
  symbolic value `Bcrypt(salt, plain)` with `Matches` as `bcrypt.compare`. The
  signed token is its payload `{ id, role }`.
- **Handlers as functions** (`App` for app.js, `DebtRoutes` for routes/debts.js):
  each handler gives the HTTP status and body it sends and the store it leaves.
  The store is the two collections as maps from id to document (`Store.State`).
  `Passport.Authenticate` is the JWT verify callback. `AuthMiddleware.IsAdmin` is
  the `isAdmin` middleware. `Routes.Step` puts them in front of the handlers as
  each route declares, and `Routes.Run` runs a sequence of requests.
- **Handlers as the code runs them** (`Server.Db`): a store object with mutable
  `users` and `debts` fields. Its methods load a document, check, assign fields
  one by one and save. Each method is proved to produce exactly the response and
  store that the matching function describes, and to keep the store invariant
  `Store.Valid`: unique, non-empty usernames; debts with their required fields
  and a non-zero value.

Environment inputs are parameters:

- the bcrypt salt;
- the ObjectId a new document receives;
- whether passport's `User.findById` raises;
- whether `User.findByPk` throws.

A request field that is absent is passed as `""` (or `0` for `value`). Every
handler only tests its fields for truthiness, and absent, empty and zero values
are equally falsy there.

### Behaviour of the code worth knowing

- `GET /user/:id` is behind `isAdmin` (app.js:45), so a client cannot read even
  their own profile. An unknown id gets 442 with the login failure message
  (app.js:53-55) rather than 404.
- `PUT /user/:id` answers with the saved document as loaded by `findById(id)`,
  password hash included (app.js:182, app.js:211). `GET /user/:id`, `GET /users`
  and passport all deselect `password` (app.js:51, app.js:222,
  auth/passport.js:15); this handler alone sends the stored hash.
  `App.UpdateChangesOnlySentFields` states the body the handler actually sends.
- `DELETE /user/:id` has no `isAdmin`; the owner-or-admin check is inline.
- `isAdmin` falls back to `User.findByPk`, which Mongoose models do not have. As
  written, every non-admin therefore gets 500 rather than 403; the model keeps
  both answers (`findByPkThrows`).
- Registration accepts any enum role, `admin` included, from an unauthenticated
  request (`RouteProperties.AnyoneMayRegisterAsAdmin`).
- A debt's `userId` is never checked against the users
  (`DebtRoutes.AddDebtAcceptsUnknownOwner`).

## Model

| member | source | states |
|---|---|---|
| Models.ParseRole | models/User.js:6 | a role string is a role exactly when it is `admin` or `cliente`, and it spells that role |
| Models.RoleNameParses | models/User.js:6 | every role's spelling reads back as that role |
| Models.CastRole | models/User.js:6 | an absent role becomes `cliente`; a given one is kept exactly when it is in the enum, otherwise saving fails |
| Models.ParseStatus | routes/debts.js:70 | a status string is accepted exactly when it is `pendente`, `agendado` or `pago`, and it spells that status |
| Models.StatusNameParses | models/Debt.js:8 | every status's spelling reads back as that status |
| Models.CastStatus | models/Debt.js:8 | an absent status becomes `pendente`; a given one is kept exactly when it is in the enum, otherwise saving fails |
| Models.Hash | app.js:84-86 | the stored hash matches its own plaintext and no other string |
| Models.ProfileOf | auth/passport.js:15 | the password-less view keeps id, username and role |
| Models.ProfileIgnoresPassword | auth/passport.js:15 | the profile is the same whatever password hash the document holds: `-password` drops it |
| Models.Matches | app.js:141 | `bcrypt.compare`: a plaintext matches a hash exactly when it is the plaintext that was hashed, whatever the salt |
| Models.UserRequiredFields | models/User.js:4-5 | a stored user has a non-empty username (the password is always a hash, so it is present) |
| Models.DebtRequiredFields | models/Debt.js:4-7 | a stored debt has a non-empty userId, name and dueDate |
| Models.UsernamesUnique | models/User.js:4 | the unique index: no two stored ids carry the same username |
| Store.Valid | models/User.js:4-5 | the schema constraints every stored document meets: unique usernames, the required fields of users and debts, and a non-zero value on every debt (the truthiness check of routes/debts.js:19 and 108) |
| Store.DebtsOf | routes/debts.js:51 | `Debt.find({ userId })` yields exactly the debts whose userId is the given id, unchanged |
| Store.DebtsNotOf | app.js:247 | `Debt.deleteMany({ userId })` leaves exactly the debts of other users, unchanged |
| Passport.Authenticate | auth/passport.js:13-25 | a token authenticates exactly when its id names a stored user and the lookup does not fail; the identity is that user's stored id, username and role, without a password; a failing lookup is an error, never a success |
| Passport.Refusal | auth/passport.js:17-24 | an unresolved token is answered 401, a lookup error 500 |
| Passport.RoleIsReadFromStore | auth/passport.js:15 | the role a route sees is the stored one; the role signed into the token makes no difference |
| AuthMiddleware.IsAdmin | middlewares/auth.js:6-27 | an admin caller passes; any other caller passes only if the fallback lookup runs and finds an admin; every denial is 403 or 500, and 500 exactly when there is no caller or the lookup throws |
| AuthMiddleware.AdminPassesWithoutLookup | middlewares/auth.js:10-12 | an admin passes whatever the store holds and whatever the fallback would do |
| AuthMiddleware.ResolvedNonAdminDenied | middlewares/auth.js:15-26 | a caller passport has just resolved, who is not an admin, is denied with 403 or 500 |
| App.Register | app.js:63-115 | the registration handler: validation, confirmation, uniqueness, hashing, save |
| App.RegisterMissingField | app.js:69-71 | any of the four fields missing gives 422 and the store is unchanged |
| App.RegisterPasswordMismatch | app.js:73-75 | password and confirmation differing gives 442 and the store is unchanged |
| App.RegisterDuplicateUsername | app.js:78-82 | a username in use gives 442, the store is unchanged and the holder stays the only user with that name |
| App.RegisterCreatesOneUser | app.js:84-103 | 201 exactly when all checks pass; then exactly one user is added under the new id, with the given username and role and the hash of the password; nothing else changes |
| App.RegisterInvalidRole | app.js:95-113 | a role outside the enum fails at save with 500 and creates no user |
| App.RegisterKeepsValid | app.js:63-115 | registration keeps usernames unique and the other invariants |
| App.Login | app.js:119-172 | the login handler |
| App.LoginFailuresAlike | app.js:136-145 | an unknown username and a wrong password get the same 442 with the same message |
| App.LoginSucceeds | app.js:134-161 | 200 exactly when the named user's hash matches the password; the token and body carry that user's id and stored role |
| App.LoginNeedsAccount | app.js:134-138 | no stored user of that name means no 200 |
| App.GetUser | app.js:43-59 | past isAdmin: 200 with the password-less profile exactly when the id is stored, otherwise 442 with the login failure message |
| App.ListUsers | app.js:218-227 | past isAdmin: 200 with exactly the password-less profiles of all stored users |
| App.Edited | app.js:191-202 | the document after the username and password assignments: a field is replaced only when it was sent, the password by its hash |
| App.UpdateUser | app.js:175-215 | the user-update handler, checks in source order |
| App.UpdateMissingUser | app.js:182-183 | a missing target gives 404 whoever the caller is, before any ownership check |
| App.UpdateNotOwner | app.js:186-188 | a caller neither owner nor admin gets 403 and nothing is saved |
| App.UpdateUsernameTaken | app.js:191-195 | a username held by another id gives 422 and nothing is saved, even when a non-admin also sends a role |
| App.UpdateRoleByNonAdmin | app.js:204-207 | a role sent by a non-admin owner gives 403 and nothing is saved |
| App.UpdateChangesOnlySentFields | app.js:191-211 | 200 exactly when every check passes; only the target user changes, and only in the fields sent (password stored hashed); the body is the whole saved document |
| App.UpdateRejectedUnchanged | app.js:181-214 | every answer other than 200 leaves the store unchanged |
| App.UpdateKeepsValid | app.js:191-210 | an update keeps usernames unique and non-empty |
| App.DeleteUser | app.js:230-258 | the user-delete handler |
| App.DeleteUserCascades | app.js:246-252 | the owner or an admin removes that user and every debt naming it, and nothing else; afterwards no debt refers to the id |
| App.DeleteUserRejected | app.js:236-244 | a missing id gives 404 with the delete route's own not-found text, anyone else 403 with the access-denied text; both collections are unchanged |
| App.DeleteUserKeepsValid | app.js:230-258 | deletion keeps the invariant |
| DebtRoutes.AddDebt | routes/debts.js:11-39 | the debt-creation handler |
| DebtRoutes.AddDebtMissingField | routes/debts.js:19-21 | a missing or falsy field, value 0 included, gives 422 and adds no debt |
| DebtRoutes.AddDebtInsertsOne | routes/debts.js:23-28 | 201 exactly when the fields are truthy and the id is new; exactly one debt is added, with the given fields and status `pendente`; on any other answer nothing changes |
| DebtRoutes.AddDebtAcceptsUnknownOwner | models/Debt.js:4 | a debt can be created for a userId that names no user |
| DebtRoutes.ListDebts | routes/debts.js:42-60 | an admin gets every debt whatever :userId is; the user named by :userId gets exactly their own debts; anyone else gets 403 |
| DebtRoutes.ListDebtsForOwner | routes/debts.js:50-51 | a non-admin listing their own id gets exactly the debts whose userId is theirs |
| DebtRoutes.UpdateStatus | routes/debts.js:63-92 | the status-update handler |
| DebtRoutes.UpdateStatusInvalid | routes/debts.js:70-72 | a status outside the enum gives 422 before any lookup, even for a missing debt, and nothing changes |
| DebtRoutes.UpdateStatusRejected | routes/debts.js:75-81 | a missing debt gives 404; a caller neither admin nor owner gets 403; the store is unchanged |
| DebtRoutes.UpdateStatusChangesOnlyStatus | routes/debts.js:74-87 | 200 exactly for an admin or the owner of an existing debt with a valid status; only that debt's status changes |
| DebtRoutes.EditDebt | routes/debts.js:95-134 | the full-edit handler, checks in source order |
| DebtRoutes.EditByNonAdmin | routes/debts.js:103-105 | a non-admin gets 403 before any field check or lookup |
| DebtRoutes.EditMissingField | routes/debts.js:108-110 | an admin with a missing field gets 422, even for a missing debt |
| DebtRoutes.EditMissingDebt | routes/debts.js:113-117 | an admin with every field, on a missing debt, gets 404 |
| DebtRoutes.EditReplacesAllFields | routes/debts.js:119-132 | 200 exactly for an admin with five truthy fields, an enum status and an existing debt; all five fields of that debt are replaced and nothing else changes; a status outside the enum gives 500 and changes nothing |
| DebtRoutes.DeleteDebt | routes/debts.js:137-151 | the debt-delete handler |
| DebtRoutes.DeleteDebtRemovesOne | routes/debts.js:144-147 | 200 whether or not the debt existed; only that debt is gone |
| DebtRoutes.DebtHandlersKeepValid | routes/debts.js:11-134 | the debt handlers keep the store invariant |
| Routes.Handle | app.js:43-258 | dispatch of a let-through request to its handler |
| Routes.Protected | auth/passport.js:13-25 | passport, then isAdmin on the routes that list it, then the handler |
| Routes.Step | app.js:43-258 | one request through its route's middleware chain; the debt routes are those of routes/debts.js:11-151 |
| Routes.StepKeepsValid | models/User.js:4 | every request keeps usernames unique and the other invariants |
| Routes.Run | models/User.js:4 | any run of requests from a valid store ends in a valid store |
| RouteProperties.MayChange | app.js:186-207 | who may change what: owner or admin for users, only admins for role changes and for debt creation, edit and deletion, admin or owner for a debt's status |
| RouteProperties.StepRespectsPolicy | app.js:175-258 | every request that changes the store is allowed by that policy |
| RouteProperties.StepRejectedUnchanged | app.js:63-258 | any answer outside 2xx, at any stage of any route, leaves both collections unchanged |
| RouteProperties.UnresolvedTokenRefused | auth/passport.js:19-21 | a missing token or one for a deleted user gets 401 on every protected route and changes nothing |
| RouteProperties.LookupErrorRefused | auth/passport.js:23-25 | a failing passport lookup gets 500 and changes nothing |
| RouteProperties.AdminRouteRefusesNonAdmin | middlewares/auth.js:6-27 | on the four isAdmin routes, a token resolving to a stored non-admin gets 403 or 500 and the store is unchanged, whatever role the token was signed with |
| RouteProperties.StepCreatesNoAdmin | app.js:204-208 | in a store without admins, no request except registration as admin creates one |
| RouteProperties.PutUserByNonAdminKeepsRoles | app.js:204-207 | in a store without admins, every caller is a non-admin, so a successful PUT /user/:id sent no role and changed none |
| RouteProperties.RegisterOtherRoleAddsNoAdmin | app.js:89-97 | registering with a role other than `admin` adds no admin |
| RouteProperties.StepKeepsStoredUsers | app.js:43-258 | every route other than registration and PUT /user/:id leaves each remaining user document as it was |
| RouteProperties.NoAdminWithoutAdminRegistration | app.js:204-208 | over any run without registration as admin, a store without admins stays without admins |
| RouteProperties.AnyoneMayRegisterAsAdmin | app.js:66-97 | one unauthenticated registration with role `admin` creates an admin |
| RouteProperties.StepAddsNoUser | app.js:89-97 | no route but registration adds a user |
| RouteProperties.OnlyRegistrationAddsUsers | app.js:89-97 | over any run without registration, the set of user ids can only shrink |
| Scenarios.AccountLifecycle | app.js:63-258 | register gives 201, login gives 200 with the token; reading one's own profile is refused by isAdmin; deleting the account gives 200 and empties the store; the old token then gets 401 |
| Scenarios.AdminAddsDebt | routes/debts.js:11-28 | an admin adds a debt for a client: 201 with status `pendente` |
| Scenarios.OwnerPaysDebt | routes/debts.js:63-87 | the owner marks the debt `pago`: 200, only the status changed |
| Scenarios.OnlyAdminEditsDebt | routes/debts.js:95-128 | the admin's full edit replaces every field; the owner's full edit gets 403 |
| Server.Db.FindOneByUsername | app.js:78 | finds a user with that name exactly when one exists |
| Server.Db.Register | app.js:63-115 | answers and updates the store as `App.Register`, keeping the invariant |
| Server.Db.Login | app.js:119-172 | answers as `App.Login` and changes nothing |
| Server.Db.GetUser | app.js:43-59 | answers as `App.GetUser` |
| Server.Db.UpdateUser | app.js:175-215 | assigns username, password and role one at a time and saves, with the answer and store of `App.UpdateUser`, keeping the invariant |
| Server.Db.ListUsers | app.js:218-227 | answers as `App.ListUsers` |
| Server.Db.DeleteUser | app.js:230-258 | deletes the debts, then the user, as `App.DeleteUser`, keeping the invariant |
| Server.Db.AddDebt | routes/debts.js:11-39 | answers and updates the store as `DebtRoutes.AddDebt` |
| Server.Db.ListDebts | routes/debts.js:42-60 | answers as `DebtRoutes.ListDebts` |
| Server.Db.UpdateStatus | routes/debts.js:63-92 | sets the status and saves, as `DebtRoutes.UpdateStatus` |
| Server.Db.EditDebt | routes/debts.js:95-134 | assigns the five fields and saves, as `DebtRoutes.EditDebt` |
| Server.Db.DeleteDebt | routes/debts.js:137-151 | removes the debt, as `DebtRoutes.DeleteDebt` |

## Left out

- Express wiring, JSON body parsing, CORS and the public `GET /` greeting (app.js:8-40): framework plumbing.
- The MongoDB connection, `app.listen` and `dotenv` (app.js:262-272): I/O and configuration.
- bcrypt salt generation and hashing: the salt is a parameter and the hash is symbolic. Collision-freeness of bcrypt is assumed, because `Matches` accepts only the hashed plaintext.
- Models.Hash, Models.Matches: bcrypt reads only the first 72 bytes of a password, so at app.js:141 any password sharing those bytes with the stored one also matches. The model's "matches its own plaintext and no other string" ignores that truncation.
- `jwt.sign`, signature verification and bearer extraction: foreign cryptography. A token is its payload, or None when it does not verify. Tokens carry no expiry, and none is modelled. A failing `jwt.sign` (no secret configured) at app.js:163-171 would give 500; that case is not modelled.
- The 401 for an unresolved token and the 500 for a lookup error come from passport-jwt and Express defaults. Those libraries are not part of this model.
- Concurrency: each request is one atomic step. This leaves out the check-then-act race on usernames (app.js:78-97, app.js:192-196), the crash window between the two deletes of the cascade (app.js:247-250), and the undeclared global `debts` (routes/debts.js:49-51).
- ORM failure modes: ObjectId cast errors on route parameters and on `userId`, Date parsing of `dueDate`, JS number semantics of `value`, and unexpected store errors. The 500 answers that are modelled are enum validation failures at save and a duplicate `_id`. `GET /user/:id` has no try/catch, so a store error there rejects the handler's promise; that is not modelled.
- The list endpoints return arrays in the database's order. The model returns a set of profiles and a map of debts, without order.
- `console.log` calls and the exact Portuguese message texts. A `Message` constructor stands for each distinct text. The two 404 texts for a missing user differ by a final "!" (app.js:183, app.js:238), so they are two constructors.
- JSON body types and ObjectId casting: request fields are strings and integers, and ids are compared as strings. Three behaviours of the code are therefore not captured:
  - an object such as `{"$ne": ""}` sent as `username` is a query for `User.findOne({ username })` (app.js:78, app.js:134), so register answers 442 whenever any user exists and login checks the first stored user's password;
  - `value: "0"` is a truthy string at routes/debts.js:19 and routes/debts.js:108, and save casts it to the number 0, so a stored debt can have value 0, unlike what `Store.Valid` states;
  - `PUT /user/:id` with the upper-case hex spelling of one's own id: `findById` finds the user (app.js:182) but the string comparison at app.js:186 fails, so the owner gets 403, while the model answers 404.
- App.Login: requires that usernames are unique, which the unique index on `username` guarantees. What `findOne` picks when two users share a name is not modelled.
- Routes.Step: requires `Store.Valid` (through `App.Login`). `Routes.Run` shows that every reachable store satisfies it.
