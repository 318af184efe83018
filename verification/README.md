# Delivery API — authentication and access-control core, in Dafny

This project models the authentication and role-based access decisions of
the delivery-tracking API server, and the invariants of its `users` table.
The server is an Express application over SQLite. Its staff are
administrators (`admin`) and couriers (`kurir`). The model covers:

- **Login** (`POST /api/login`). The body's fields are checked, the user's
  row is looked up by username, and its status must be `'aktif'`. The
  bcrypt digest must match the password. On success a 24-hour JWT is
  signed carrying `{id, username, role}`.
- **Request filters.** `verifyToken` reads the token from the
  `Authorization` header (`split(' ')[1]`) and verifies it. `verifyAdmin`
  admits only role `'admin'`.
- **Directory handlers.** These are own profile, the user listing (with an
  optional role filter, newest first), lookup by id, and the admin-or-self
  update. The update writes only the truthy fields, re-hashes a new
  password and refreshes `updated_at`.
- **The `users` table.** The CHECK, UNIQUE, NOT NULL and DEFAULT
  constraints become a validity predicate and an `Insert` that enforces
  them. The predicate is stricter than the table in one place: it requires
  a `status` of `'aktif'` or `'nonaktif'`, while the table also admits a
  NULL status. The id comes from an AUTOINCREMENT counter. `createDefaultUsers` is
  modelled as an insert-if-absent over the store.

Every operation is a pure function over immutable values, except the
listing, which is a method. The store is a `map<int, User>` from id to row,
plus the AUTOINCREMENT high-water mark. Replies are `Ok(payload)` or
`Reject(status, message)`, with the server's literal Indonesian messages.

The foreign libraries are parameters:

- bcrypt is a `Hasher` of two function values. `hash(pw, salt)` is
  `hashSync`; the random salt is an explicit argument. `matches(pw, digest)`
  is `compareSync`.
- jsonwebtoken is a `TokenCodec` with the secret built in. `encode` is
  `jwt.sign` and `decode` checks the signature. The model adds the `iat`/`exp`
  stamps and the expiry check (`now < exp`) itself, in seconds.
- The clock (`now`, SQLite's `CURRENT_TIMESTAMP`) is a parameter.

Modules: `Outcomes` (result types), `Headers` (bearer-token extraction),
`Crypto` (hasher and token codec), `Schema` (the `users` table),
`Seeding` (`createDefaultUsers`), `Middleware` (`verifyToken`,
`verifyAdmin`), `Auth` (login), `Directory` (directory handlers and their
routes), `Scenarios` (properties that span several operations).

The lookup by username needs a precondition. It picks the row with the
given username, and that row is unique only because of the table's UNIQUE
constraint. So `FindByUsername` and `Login` require `UniqueUsernames`. Every
store the table can reach satisfies it: `Insert`, the update and seeding
all preserve `Valid`.

Some behaviours of the code are easy to misread, and the model keeps them
as the code has them:

- Roles are `'admin'` and `'kurir'`, and statuses are `'aktif'` and
  `'nonaktif'`, as the table's CHECK constraints spell them
  (backend/database.js:25, backend/database.js:29).
- `jwt.verify` answers every failure, expiry included, with the same 401
  and the same message "Token tidak valid atau sudah kadaluarsa"
  (backend/server.js:114-119).
- The profile handler answers 404 "User tidak ditemukan" when the row of
  the token's id is gone (backend/server.js:152-157).
- The update never checks that the UPDATE touched a row. An update of an id
  with no row answers success and changes nothing (backend/server.js:273-286).

## Model

| member | source | states |
|---|---|---|
| `Headers.Split` | backend/server.js:105 | `split(' ')` yields at least one piece, no piece contains the separator, and joining the pieces restores the input |
| `Headers.SplitJoin` | backend/server.js:105 | splitting a join of separator-free pieces gives back exactly those pieces, so `Split` and `Join` are inverse |
| `Headers.SplitFirstPiece` | backend/server.js:105 | splitting at the first separator peels off exactly the text before it |
| `Headers.SplitNoSeparator` | backend/server.js:105 | a header without a space splits into itself alone |
| `Headers.BearerToken` | backend/server.js:104-107 | a token read from the header is non-empty, has no space, and comes from a present header that contains a space |
| `Headers.BearerTokenOfHeader` | backend/server.js:104-105 | a header `<scheme> <t><tail>`, with `tail` empty or starting at a space, yields exactly `t` (no token when `t` is empty), whatever the scheme word and whatever follows: the token is the second piece of `split(' ')` |
| `Headers.NoSpaceNoToken` | backend/server.js:104-112 | a header with no space carries no token |
| `Crypto.Verify` | backend/server.js:114-120 | a token is accepted if and only if it decodes and the time is before its `exp`, and an accepted token yields exactly the decoded payload |
| `Crypto.SignVerify` | backend/server.js:73-81 | a signed token verifies to exactly its claims with `iat = now`, `exp = now + 86400`, exactly while the time is before `exp` |
| `Middleware.VerifyToken` | backend/server.js:103-124 | no token is 403 "Token tidak ditemukan"; a token that fails to decode or has expired is 401; these are the only two rejections; on success the principal is the decoded payload as it is, and the store is not read |
| `Middleware.VerifyAdmin` | backend/server.js:127-135 | passes the principal on unchanged if and only if its role claim is `'admin'`, otherwise 403 |
| `Middleware.AdminGate` | backend/server.js:168 | the chain `verifyToken, verifyAdmin`: a token rejection passes through unchanged, and it admits exactly the admin principals |
| `Middleware.SignedTokenPassesGate` | backend/server.js:103-124 | a token signed for some claims, sent as `Bearer <token>`, passes the gate with exactly those claims for 24 hours and then gets 401 |
| `Middleware.AdminGateByRole` | backend/server.js:198 | an authenticated non-admin gets 403 at the admin gate and an admin passes unchanged |
| `Schema.Insert` | backend/database.js:21-31 | an INSERT is refused exactly when the role or status CHECK fails or the username is taken; otherwise it adds one row under id `lastId + 1`, which becomes the new AUTOINCREMENT mark and, on a valid table, is not an id in use, with status defaulting to `'aktif'` and both timestamps `now`; existing rows are kept and validity is preserved |
| `Schema.FindByUsername` | backend/server.js:38 | finds a row if and only if one has the username, and it is that row |
| `Schema.EmptyStoreValid` | backend/database.js:21-31 | the empty table satisfies every constraint |
| `Auth.Login` | backend/server.js:26-98 | a missing or empty field gives 400; an unknown username gives 401; an inactive account gives 403 "Akun Anda tidak aktif"; every rejection is one of these three; a success carries a token signed for the stored row's `{id, username, role}` and a user object without the password |
| `Auth.LoginSucceedsIff` | backend/server.js:54-81 | login succeeds if and only if both fields are supplied and name an `'aktif'` row whose digest matches the password |
| `Auth.EmptyInputIgnoresStore` | backend/server.js:30-35 | a missing or empty field gets 400 whatever the store holds |
| `Auth.UnknownUserLikeWrongPassword` | backend/server.js:47-70 | an unknown username and a wrong password for an active user get the identical 401 reply |
| `Auth.InactiveIgnoresPassword` | backend/server.js:54-60 | for an inactive account, every password gets the same 403 reply |
| `Auth.LoginTokenCarriesRow` | backend/server.js:72-95 | the token of a successful login decodes, within 24 hours, to the stored row's `{id, username, role}`, and the returned user has that row's id |
| `Seeding.SeedOne` | backend/database.js:94-116 | a taken username leaves the store unchanged; otherwise, for a valid role, the new row stores `hash(password, salt)` with status `'aktif'`; afterwards the username is present; validity and existing rows are preserved |
| `Seeding.SeedFrom` | backend/database.js:94-117 | seeding a list keeps existing rows and validity, leaves the store unchanged when every username is already taken, and leaves every seeded username present; every row it adds is the hashed, `'aktif'` row of a listed seed whose username was absent |
| `Seeding.CreateDefaultUsers` | backend/database.js:66-118 | on a valid table, seeding keeps validity and every existing row, leaves `admin`, `kurir1` and `kurir2` present, and adds no row other than the hashed, `'aktif'` row of a default account whose username was absent |
| `Seeding.SeedingIdempotent` | backend/database.js:95-101 | seeding again, with any salts and at any time, changes nothing |
| `Seeding.SeedingEmptyStore` | backend/database.js:67-106 | seeding the empty table yields exactly the three default rows with ids 1 to 3, status `'aktif'`, and hashed passwords |
| `Directory.Profile` | backend/server.js:141-162 | answers the row of the principal's id claim, without password, if it exists, and 404 otherwise |
| `Directory.GetUser` | backend/server.js:199-222 | answers the row of the id if it exists, and 404 "User tidak ditemukan" otherwise |
| `Directory.ProfileRoute` | backend/server.js:140 | a token rejection is the reply, otherwise the profile of the token's principal |
| `Directory.GetUserRoute` | backend/server.js:198 | an admin-gate rejection is the reply, otherwise the lookup |
| `Directory.GetUserRouteGated` | backend/server.js:198 | a request the admin gate rejects gets the same reply whatever the store holds, and an authenticated non-admin gets 403 |
| `Directory.ListUsers` | backend/server.js:169-193 | the listing holds each selected row exactly once, as its stored view, newest `created_at` first, with `total` equal to its length |
| `Directory.ListUsersRoute` | backend/server.js:168 | an admin-gate rejection is the reply, otherwise the ordered, filtered listing |
| `Directory.FilterSelectsRole` | backend/server.js:174-177 | with a role filter, every listed user has that role and every user with that role is listed |
| `Directory.NewestExists` | backend/server.js:179 | a non-empty set of rows has one created no earlier than any other, so the newest-first order exists |
| `Directory.Patch` | backend/server.js:243-270 | each truthy field replaces the stored one, a password is stored as its digest, untouched fields keep their values, and `updated_at` becomes `now` |
| `Directory.UpdateUser` | backend/server.js:229-287 | 403 unless the principal is an admin or the path id is its own; 400 with no write when no field is truthy; otherwise success, only the target row is patched, and no id is added or removed |
| `Directory.UpdateRoute` | backend/server.js:228 | a token rejection is the reply and leaves the rows unchanged, otherwise the update for the token's claims |
| `Directory.UpdatePreservesValid` | backend/server.js:240-273 | an update keeps every table constraint, since it never touches username, role or status |
| `Scenarios.AdminLogin` | backend/server.js:47-81 | on a table with an active admin row, the correct password logs in with role admin, and a wrong one gets the reply of an unknown user |
| `Scenarios.SeededTable` | backend/database.js:67-106 | the freshly seeded table has unique usernames, an active `admin` row with id 1 storing the digest of `admin123`, and no `ghost` |
| `Scenarios.SeededAdminLogin` | backend/database.js:67-75 | on a freshly seeded table, `admin`/`admin123` logs in as admin, and a wrong password gets exactly the reply for the unknown `ghost` |
| `Scenarios.SeededPasswordsHashed` | backend/database.js:102-106 | every seeded row stores the digest of its default password, never the plaintext |
| `Scenarios.TokenOutlivesDeactivation` | backend/server.js:114-122 | after an account is deactivated, its login token still passes the gate and reads the profile, while a new login gets 403 |
| `Scenarios.PasswordChangeThenLogin` | backend/server.js:258-261 | after a self or admin password update, login with the new password succeeds for an active account |
| `Scenarios.CourierBarredFromLookup` | backend/server.js:198 | a courier's login token is refused with 403 by the admin-only lookup |

## Left out

- Database failures. Every `err` branch answering 500 (for example backend/server.js:39-45) is left out, because the store is an abstract map that does not fail. Seeding's logged errors are left out too.
- The statistics endpoint (backend/server.js:293-354). It is four SQL counts over the shipment table against SQLite's `DATE('now')`; its only logic is error plumbing.
- The health, root, 404 and 500 handlers, and the insecure default `JWT_SECRET`. These are configuration and boilerplate.
- Express wiring, CORS, body parsing, request logging, `app.listen` and SIGINT shutdown. These are I/O and process plumbing.
- The internals of bcrypt and jsonwebtoken. They are foreign libraries, abstracted as `Hasher` and `TokenCodec`.
- Algorithm, `nbf` and structural checks of `jwt.verify`. They are folded into the codec's `decode`.
- SQL text construction and the sqlite3 callbacks. Their effect is modelled as map updates.
- The `pengiriman` (shipment) table. It is only counted by the statistics endpoint.
- The asynchronous interleaving of the seeding `forEach` callbacks. Seeding is modelled as sequential.
- Seeding's separate timestamps. All three seed inserts share one `now`.
- A NULL `status`. The CHECK at backend/database.js:29 admits it because the column is nullable and a CHECK on NULL passes; `Schema.Valid` and the `status: string` field exclude it. No handler writes one: seeding leaves the default and the update never sets `status`.
- Request fields that are truthy non-strings (numbers, objects). Body fields and the role query are modelled as optional strings.
- A `role` query given more than once, which Express turns into an array.
- Path ids that do not coerce to an integer. The path id is modelled as the integer that both JavaScript's `!=` and SQLite's INTEGER affinity see; the two coercions disagree on inputs such as `0x10` and `abc`.
- SQLite's AUTOINCREMENT exhaustion at the largest 64-bit id.
- `Directory.ListUsers`: rows with equal `created_at` may come in any order, as `ORDER BY created_at DESC` leaves ties unspecified.
- `Schema.Insert`: the new id is the counter plus one; SQLite would also skip past a larger existing id, which cannot exist in a valid table.
- `Middleware.SignedTokenPassesGate`, `Scenarios.TokenOutlivesDeactivation` and `Scenarios.CourierBarredFromLookup`: assume the token is `HeaderSafe` (non-empty, no space), as a JWT's base64url segments are; the codec is abstract and could return any string.
