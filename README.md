# rust-auth-server: session authorization, modelled in Dafny

rust-auth-server is an actix-web service for invitations, registration,
login and password changes over a PostgreSQL store. It also guards other
routes with a `LoggedUser` extractor. This project models the part of it
that makes decisions:

- **Authorization cache** (`AuthorizedUsers`). It maps each user to a
  *bag* of statuses, each `Authorized(t)` or `NotAuthorized`. Writing a
  status adds to the bag and never replaces it. A user is authorized while
  some value in the bag is a grant less than 15 whole minutes old. Every
  minute the server merges the users table into the cache: users not
  listed are demoted, listed users are granted.
- **Request decision** (`_from_request`): a test-environment bypass, token
  decoding, then the cache check.
- **JWT claim and token** (`Claim::with_email`, `create_token`,
  `decode_token`). The claim holds the registered claims `iss`, `sub`,
  `iat` and `exp` of RFC 7519 section 4.1, plus `email`. Tokens are signed
  with HS256 (RFC 7518 section 3.2) and valid for 24 hours. Every decoding
  failure collapses to `Unauthorized`.
- **Store rules** over an in-memory `users` and `invitations` table:
  creating an invitation, registering through one, logging in, changing a
  password, and the record conversions.
- **Error classification**. `ServiceError` maps to a 400, a 200 login page
  or a 500. `Unauthorized` also raises the cache-reload trigger.

Time is an integer number of seconds, passed as `now`. Environment
variables are a `map<string, string>`. The failures of the connection pool
and of queries are an input, `Models.Faults`. The foreign libraries are
ideal stand-ins, so their round trips are proved rather than assumed:

- jsonwebtoken: a token carries its header, its claims and a keyed tag. The
  tag is an injective constructor over key, header and claims.
- bcrypt: a digest is an injective constructor over cost, salt and password.
- uuid: the simple (32 hex digits) and hyphenated (8-4-4-4-12) forms are
  parsed.

Modules follow the source files:

| module | source file |
|---|---|
| `LoggedUsers` | src/logged_user.rs |
| `Utils` | src/utils.rs |
| `Errors` | src/errors.rs |
| `Models` | src/models.rs |
| `RegisterHandler` | src/register_handler.rs |
| `AuthHandler` | src/auth_handler.rs |
| `ChangePasswordHandler` | src/change_password_handler.rs |
| `InvitationHandler` | src/invitation_handler.rs |

`Wrappers`, `Env`, `Uuid`, `Bcrypt` and `Trigger` stand in for crates and
for the process-wide reload flag.

### Demotion does not revoke, and password changes do not reload

- **`merge_users` appends `NotAuthorized` for users no longer in the table,
  but this does not revoke them.** The write at src/logged_user.rs:124 is a
  bag insert. `is_authorized` (src/logged_user.rs:103-110) accepts any fresh
  grant in the bag, so the appended `NotAuthorized` changes nothing. A user
  removed from the table stays authorized until 15 minutes after its last
  grant. `LoggedUsers.MergeKeepsUnlisted` proves this for every cache.
  `LoggedUsers.RevocationLag` exhibits it on two users.
- **Unlike registration (src/register_handler.rs:59), a password change
  never raises `TRIGGER_DB_UPDATE`.** src/change_password_handler.rs:29-40
  has no call to `set()`, so `ChangePasswordHandler.Handle` does not touch
  the trigger.

## Model

| member | source | states |
|---|---|---|
| `LoggedUsers.FromClaim` | src/logged_user.rs:26-32 | the cache key is the claim's email, unchanged |
| `LoggedUsers.FreshWindow` | src/logged_user.rs:106 | `num_minutes` truncates toward zero, so "under 15 whole minutes" is exactly "under 900 seconds", for past and future grants |
| `LoggedUsers.AuthorizedUsers.constructor` | src/logged_user.rs:88-95 | a new cache is empty |
| `LoggedUsers.AuthorizedUsers.IsAuthorized` | src/logged_user.rs:101-113 | true iff the user has a bag and some value in it is `Authorized(t)` with `num_minutes(now - t) < 15`; a missing user or an all-`NotAuthorized` bag is never authorized |
| `LoggedUsers.AuthorizedUsers.StoreAuth` | src/logged_user.rs:115-128 | the cache becomes the old cache with one status per listed user appended to its bag; the status is `Authorized(now)`, with one shared timestamp, or `NotAuthorized` |
| `LoggedUsers.StoredKeys` | src/logged_user.rs:123-125 | storing makes the keys the old keys plus the listed users; no key is removed |
| `LoggedUsers.StoredBag` | src/logged_user.rs:123-125 | each bag gains one copy of the status per listing of its key; unlisted bags are unchanged |
| `LoggedUsers.StoredOnce` | src/logged_user.rs:115-128 | a list without repeats adds exactly one status to each listed bag |
| `LoggedUsers.AuthorizedUsers.MergeUsers` | src/logged_user.rs:130-140 | the demotions (every unlisted key gains `NotAuthorized`) are published first; the promotions of every listed user follow |
| `LoggedUsers.DemotionByEnumeration` | src/logged_user.rs:131-137 | storing `NotAuthorized` for an enumeration of the unlisted keys, built by the push loop, is exactly the demotion |
| `LoggedUsers.MergedAt` | src/logged_user.rs:130-140 | after a merge, the keys are the old keys united with the listed users; unlisted keys gained exactly `NotAuthorized`; listed users gained their grants |
| `LoggedUsers.MergeAuthorizesListed` | src/logged_user.rs:138 | right after a merge, every listed user is authorized |
| `LoggedUsers.MergeKeepsUnlisted` | src/logged_user.rs:133-137 | a merge leaves unchanged, at every time, whether an unlisted user is authorized |
| `LoggedUsers.RevocationLag` | src/logged_user.rs:130-140 | merged with a and b at time 0, then with a alone at time 60, b's bag is `[Authorized(0), NotAuthorized]` and b is still authorized |
| `LoggedUsers.AuthorizedUsers.GetKeys` | src/logged_user.rs:142-148 | returns every cached user exactly once and nothing else |
| `LoggedUsers.Authorize` | src/logged_user.rs:34-49 | with `TESTENV` = "true" the answer is `user@test`, whatever the token; otherwise success iff the token decodes and its email is authorized, returning that email; an extractor failure keeps its own error and every other refusal is `Unauthorized` |
| `LoggedUsers.FromRequest` | src/logged_user.rs:34-49 | the extractor, reading the cache through `is_authorized`, decides as `Authorize` does on the cache's state |
| `LoggedUsers.Emails` | src/logged_user.rs:152-155 | one cache key per row, in order, carrying that row's email |
| `LoggedUsers.FillAuthFromDb` | src/logged_user.rs:151-158 | it succeeds iff the load succeeds; a failed load returns its error and leaves the cache untouched; on success the cache is the merge of exactly the loaded emails, and every loaded user is authorized |
| `LoggedUsers.RefreshTick` | src/rust_auth_server.rs:52-58 | one tick of the reload loop merges the table when the load works and otherwise ignores the error, with the cache untouched |
| `Utils.HashCost` | src/utils.rs:15-18 | the cost chosen always fits a u32; whenever `HASH_ROUNDS` parses as a u32 (including forms such as "+12" or "012"), that value is the cost |
| `Utils.HashCostFromVariable` | src/utils.rs:15-16 | a decimal `HASH_ROUNDS` below 2^32 is the cost used |
| `Utils.HashCostFallback` | src/utils.rs:15-17 | an unset or unparsable `HASH_ROUNDS` gives `DEFAULT_COST` (12) |
| `Utils.HashPassword` | src/utils.rs:13-21 | it fails iff the cost is outside bcrypt's range, and then only with `InternalServerError`; on success, verification accepts exactly the hashed password |
| `Utils.WithEmail` | src/utils.rs:40-49 | `sub` is "auth", `email` is the argument, `iss` is `DOMAIN` or "localhost"; `iat` is now and `exp` is 24 hours later |
| `Utils.GetEmail` | src/utils.rs:51-53 | returns the claim's email |
| `Utils.SlimUserFromClaim` | src/utils.rs:56-62 | keeps the claim's email |
| `Utils.GetSecret` | src/utils.rs:90-92 | `JWT_SECRET`, or "my secret" when it is unset |
| `Utils.Encode` | src/utils.rs:70-74 | encoding with a secret key succeeds iff the algorithm is an HMAC |
| `Utils.Decode` | src/utils.rs:80-84 | decoding succeeds iff the token is well formed, its algorithm is accepted, its tag is the key's tag over header and claims, and it is not expired; it then returns the signed claims |
| `Utils.CollapseEncoding` | src/utils.rs:75-76 | every encoding failure becomes `InternalServerError`; a success keeps the token |
| `Utils.CollapseDecoding` | src/utils.rs:85-86 | every decoding failure becomes `Unauthorized`; a success keeps the claims |
| `Utils.CreateToken` | src/utils.rs:68-77 | with HS256 as the algorithm, token creation always succeeds |
| `Utils.DecodeToken` | src/utils.rs:79-87 | every failure is `Unauthorized`; a malformed token is refused |
| `Utils.TokenRoundTrip` | src/utils.rs:68-87 | under the same secret, a token decodes to the claim it was made from, whose email is the user's, exactly while `now <= iat + 86400`; afterwards the answer is `Unauthorized` |
| `Utils.ForeignSecretRejected` | src/utils.rs:79-87 | a token made under one secret is refused under any other |
| `Utils.TamperedClaimsRejected` | src/utils.rs:79-87 | a token whose claims were changed after signing is refused |
| `Errors.Respond` | src/errors.rs:34-51 | status 400 iff `BadRequest`, carrying its message as JSON; 200 with the login page iff `Unauthorized`; 500 with the fixed message for every other variant |
| `Errors.ErrorResponse` | src/errors.rs:34-51 | responds as `Respond` does, and the trigger ends up raised iff it was raised before or the error is `Unauthorized` |
| `Trigger.UpdateTrigger.Set` | src/errors.rs:38 | after `set()` the reload flag is raised |
| `Errors.FromParseError` | src/errors.rs:56-60 | every UUID parse error becomes `BadRequest("Invalid UUID")` |
| `Errors.FromBlockingError` | src/errors.rs:62-66 | a thread-pool failure becomes `BlockingError` carrying its display text |
| `Errors.ParseErrorResponse` | src/errors.rs:36 | a malformed UUID reaches the client as a 400 carrying "Invalid UUID" |
| `Errors.BlockingErrorResponse` | src/errors.rs:47-49 | a thread-pool failure reaches the client as the generic 500 |
| `Models.Filter` | src/models.rs:52-59 | a filtered load keeps only matching rows taken from the table; it is empty iff no row matches |
| `Models.FilterComplete` | src/models.rs:52-59 | a load misses no matching row |
| `Models.FilterLast` | src/register_handler.rs:45-50 | the last row a load returns, the one `pop` takes, is the last matching row of the table: no later row matches |
| `Models.FilterAppend` | src/register_handler.rs:45-50 | a row appended to a table is the last one a matching load returns, so `pop` yields it |
| `Models.GetAuthorizedUsers` | src/models.rs:38-42 | returns every row, unfiltered, unless the pool or the query fails |
| `Models.FromDetails` | src/models.rs:44-50 | keeps the email and the password verbatim and stamps `created_at` with now |
| `Models.FirstWithEmail` | src/models.rs:52-59 | the position of the first row with the email; no earlier row has it |
| `Models.GetByEmail` | src/models.rs:52-59 | returns the first row with the email; `NotFound` iff there is none; pool and query failures come first |
| `Models.SlimUserFromUser` | src/models.rs:75-79 | keeps only the email |
| `Models.DbExecutor.constructor` | src/schema.rs:28-42 | a store built from tables whose primary keys (`users.email`, `invitations.id`) are unique satisfies the key invariant |
| `Models.DbExecutor.InsertUser` | src/register_handler.rs:57-58 | a write failure or an email already present fails and leaves the table as it was; otherwise the row is appended and returned; the primary key stays unique |
| `Models.DbExecutor.InsertInvitation` | src/invitation_handler.rs:35-42 | a write failure or an id already present fails and leaves the table as it was; otherwise the row is appended and returned; the primary key stays unique |
| `RegisterHandler.Pending` | src/register_handler.rs:45-50 | there is an invitation iff some row has the id; the one used has the id and is the last row with it, as `pop` takes it |
| `RegisterHandler.PendingUnique` | src/register_handler.rs:45-50 | under the primary key of `invitations`, the invitation used is the one row with the id |
| `RegisterHandler.NewUser` | src/register_handler.rs:31-67 | a malformed id fails with "Invalid UUID" before any store access; a pool failure gives `R2D2Error`; a failed load, no invitation, or an expiry not strictly after now gives "Invalid Invitation"; an unexpired invitation with a cost bcrypt refuses gives `InternalServerError`; otherwise the new row has the invitation's email, is stamped now, and has a hash that accepts exactly the new password |
| `RegisterHandler.Handle` | src/register_handler.rs:31-67 | validation errors pass through; an insert failure becomes `DbError`; success inserts exactly one user, returns its email and raises the trigger; the users table is unchanged on every failure and the trigger is raised only on success |
| `RegisterHandler.RedeemInvitation` | src/register_handler.rs:39-63 | a freshly created invitation, redeemed through its hyphenated id, succeeds iff less than 24 hours have passed and the account gets the invited email; otherwise "Invalid Invitation" |
| `AuthHandler.Candidate` | src/auth_handler.rs:29-31 | there is a candidate iff some row has the email; it has the email and is the last row with it, as `pop` takes it |
| `AuthHandler.CandidateUnique` | src/auth_handler.rs:29-31 | under the primary key of `users`, the row checked is the one row with the email |
| `AuthHandler.Handle` | src/auth_handler.rs:25-43 | pool and read failures come first; login succeeds iff a row with the email exists and verification gives `Ok(true)`; an unknown email, a wrong password and a verification error all give the same "Username and Password don't match"; on success the token decodes to a claim for the returned email |
| `AuthHandler.LoginAfterRegister` | src/auth_handler.rs:29-37 | right after registering, the user logs in with the password it registered and with no other |
| `AuthHandler.LoginThenRequest` | src/auth_handler.rs:34-36 | a login token is accepted on a request while it is unexpired, if the cache was reloaded from the same table less than 15 minutes earlier |
| `ChangePasswordHandler.WithPassword` | src/change_password_handler.rs:35-37 | the table after the UPDATE: the rows with the email carry the new hash, the others are unchanged; every row keeps its email and creation time |
| `ChangePasswordHandler.Handle` | src/change_password_handler.rs:29-40 | a hash failure is `InternalServerError` with the table unchanged; an update failure is `BadRequest("Update failed")` with the table unchanged; otherwise the rows with the email get the new hash, the rest are unchanged, and the result is whether any row matched |
| `ChangePasswordHandler.LoginAfterChange` | src/change_password_handler.rs:33-37 | after a change, the account logs in with the new password and with no other |
| `InvitationHandler.NewInvitation` | src/invitation_handler.rs:26-30 | the invitation carries the requested email and expires exactly 24 hours after creation |
| `InvitationHandler.CallbackUrl` | src/invitation_handler.rs:44-45 | `CALLBACK_URL`, or "http://localhost:3000/register.html" when it is unset |
| `InvitationHandler.Handle` | src/invitation_handler.rs:22-49 | a pool failure gives `R2D2Error` and an insert failure gives `DbError`; neither sends mail; mail is sent iff the insert succeeded, and only after it; a send failure is returned but the invitation stays stored; on success the inserted invitation is returned |
| `Uuid.ParseHyphenated` | src/register_handler.rs:39 | the hyphenated rendering of an id parses back to that id |
| `Uuid.ParseSimple` | src/register_handler.rs:39 | the 32-digit rendering of an id parses back to that id |
| `Uuid.ParseStr` | src/register_handler.rs:39 | only 32- or 36-character strings can parse; any other length is `InvalidLength` |
| `Env.ParseDecimal` | src/utils.rs:16 | a decimal below 2^32 parses as a u32 to its value |
| `Env.ParseDecimalOverflow` | src/utils.rs:16 | a decimal of 2^32 or more does not parse as a u32 |
| `Env.ParseU32` | src/utils.rs:16 | a parsed value fits a u32; an empty string, a lone "+" or any "-" does not parse |
| `Bcrypt.Hash` | src/utils.rs:20 | hashing fails iff the cost is outside 4..31 |
| `Bcrypt.Verify` | src/auth_handler.rs:32 | a hash string that is not in bcrypt's format gives an error (which the login treats as a mismatch) |
| `Bcrypt.VerifyHash` | src/auth_handler.rs:32 | a hash verifies exactly the password it was made from |

## Left out

- The evmap reader/writer split, the `ThreadLocal` read handles and the writer `Mutex` (src/logged_user.rs:67-99) are concurrency machinery. The cache is one sequential map. `MergeUsers` returns, as a ghost value, the state readers see between its two writes.
- `AuthorizedUsers.store_auth` and `merge_users` always return `Ok(())` in the source. The methods have no result.
- The 60-second timer of the reload loop is async plumbing. One tick is `RefreshTick`.
- `TRIGGER_DB_UPDATE` is defined outside the files modelled here. It is a boolean that `Set` raises. Nothing clears or reads it.
- Wall-clock reads are the `now` parameter. Sub-second precision, time zones and `NaiveDateTime` range limits are not modelled, and neither is i64 overflow of `iat`/`exp`.
- jsonwebtoken internals are abstracted: base64, JSON, the HMAC computation and the leeway default. Decoding uses leeway 0, and only the algorithm, tag and `exp` checks are modelled.
- bcrypt internals are abstracted: the Blowfish computation, the 72-byte password truncation and the hash string format. Random salts are a parameter.
- The `uuid` crate's braced and URN forms are not modelled, nor its detailed error positions; any such input is a parse failure. Random v4 generation is a parameter of `InvitationHandler.Handle`.
- Table order stands in for SQL's unspecified row order: `load` and `first` carry no ORDER BY, so "the first row" (`Models.GetByEmail`) and "the last row loaded" (`RegisterHandler.Pending`, `AuthHandler.Candidate`) are in table order. Under the primary keys `users.email` and `invitations.id` at most one row matches, so the choice does not matter (`AuthHandler.CandidateUnique`, `RegisterHandler.PendingUnique`).
- Diesel queries and the r2d2 pool are an in-memory store. Faults are an input. Which diesel error a lost connection produces is collapsed to `ConnectionLost`.
- `ChangePasswordHandler.Handle` does not model the panic of the pool `unwrap` at src/change_password_handler.rs:32: a panic is not a returned value.
- `RegisterHandler.Handle` and `InvitationHandler.Handle` do not model `JoinError` from `spawn_blocking`: it arises only when the blocking task panics.
- `send_invitation` (src/email_service.rs) is AWS SES I/O. Its outcome is the `delivery` parameter, and the handler's call to it is recorded as `sent`.
- The identity extractor's cookie handling is abstracted: its outcome is `LoggedUsers.IdentityLookup`.
- The HTTP body of the login page (an embedded HTML file with two path rewrites) is `Errors.LoginPage`.
- Non-unicode environment values (`env::var` errors other than "not present") are not modelled: the environment maps strings to strings.
- Google OpenID, static files, the route modules and server start-up are HTTP and network glue outside the core.
