# Scoped-token authentication, user store and role guard

This project models the authentication core of a NestJS login service. It has three parts:

- **Scoped tokens** (`tokens.dfy`). One signed-token primitive serves three flows: login, password reset and mail confirmation. The flows differ only in the issuer and audience claims (sections 4.1.1 and 4.1.3 of RFC 7519). The subject (4.1.2) is the email. The expiry (4.1.4) is the issue time plus a duration: `'7 days'` by default, `'31 minutes'` for a reset link. Verification takes the current time `now` explicitly. It fails at or after the expiry. Every cause of failure gives the one error `Unauthorized("Invalid token")`.
- **Authentication flows** (`auth.dfy`):
  - `login` is a function of the user table.
  - `forget`, `reset`, `validateMail` and `register` are methods of `AuthService`. The service writes the shared user table and keeps an outbox of the mails it handed to the mailer.
  - Passwords are compared through a symbolic salted hash (`credentials.dfy`).
- **User store** (`users.dfy`):
  - The lookup-argument routing follows JavaScript truthiness: id `0` and email `""` count as absent.
  - `exists`, `throwErrorIfNotExists` and `getOne` are functions of the table.
  - `create`, `update` and `delete` are methods of `UserService`. That class holds the table as a map from id to record, plus the next autoincrement id.
- **Role guard** (`roles.dfy`). The allow/deny decision depends on the handler's own role metadata, given per handler as an explicit `Option<seq<Role>>`, and on the user's role.

`common.dfy` holds the shared `Option`, `Result` and HTTP-exception types.

Inputs the source takes from its environment are parameters here:
- the clock is `now`, in whole seconds;
- the bcrypt salt is `salt`;
- the mailer's outcome for one send is `Delivered` or `Failed(message)`.

The JWT signature is modelled by the token's shape. `Signed(claims)` is a token this server signed. `Unverifiable(text)` is any other string: a bad signature or a malformed token.

Two behaviours of the code are worth knowing:
- `forget` reports a missing user as `BadRequest("User not found")`, so unlike `login` it reveals whether an email exists.
- `validateMail` succeeds every time a valid token is presented, not just once. It is idempotent.

Token verification passes the expected issuer and audience to the JWT library, which compares a claim only when its expected value is nonempty. The model does the same: an empty expected issuer or audience accepts any claim. Every call site in the code passes a nonempty literal.

## Model

| member | source | states |
|---|---|---|
| `Roles.CanActivate` | src/shared/guards/role.guard.ts:13-29 | absent handler metadata allows; present metadata allows exactly the roles it lists |
| `Roles.EmptyRoleListDeniesEveryone` | src/shared/guards/role.guard.ts:18-28 | an empty required-role list is truthy, so every role is denied |
| `Roles.AdminOnlyRoute` | src/shared/guards/role.guard.ts:22-28 | a route requiring `Admin` turns away a `User` and lets an `Admin` through |
| `Roles.HandlerRoles` | src/user/user.controller.ts:23-52 | no handler of the users controller declares role metadata of its own |
| `Roles.UserControllerAdmitsEveryRole` | src/shared/guards/role.guard.ts:16-20 | the guard reads only handler metadata, so every role passes every users-controller handler; the class-level `[User]` list would refuse an admin but is never read |
| `Credentials.Compare` | src/auth/auth.service.ts:69 | a password matches a hash exactly when the hash was made from that password, under some salt |
| `Credentials.CompareHashed` | src/auth/auth.service.ts:69-71 | a password matches its own hash and no different password does |
| `Tokens.CreateToken` | src/auth/auth.service.ts:23-34 | the token carries the email as both `email` and subject, the given issuer and audience, and expires `duration` seconds after `now` (7 days by default) |
| `Tokens.CheckToken` | src/auth/auth.service.ts:36-47 | accepts exactly a token this server signed whose issuer and audience pass (equal to the expected value, or that value empty) and whose expiry is after `now`, and yields its claims; every failure is `Unauthorized("Invalid token")` |
| `Tokens.IsValidToken` | src/auth/auth.service.ts:49-56 | never fails; true exactly when `CheckToken` succeeds on the same token, scope and time |
| `Tokens.CheckCreatedToken` | src/auth/auth.service.ts:23-47 | round trip: a created token verifies under an expected scope, yielding its email, iff each expected claim is empty or equal to the token's and `now` is before issue time plus duration; otherwise the generic error |
| `Tokens.ScopeIsolation` | src/auth/auth.service.ts:36-47 | a token accepted under one (issuer, audience) is refused with the generic error under any pair that sets a different nonempty issuer or audience |
| `Tokens.EmptyIssuerUnchecked` | src/auth/auth.service.ts:36-41 | an empty expected issuer is not checked: a live signed token with an accepted audience passes whatever its issuer |
| `Tokens.FlowTokensDoNotCross` | src/auth/auth.service.ts:107-145 | a token accepted for one of the login, forget and mail-confirmation scopes is refused for the other two |
| `Users.GetEmailAndIdFromArg` | src/user/user.service.ts:41-56 | a number becomes the id with no email; a string becomes the email with no id |
| `Users.IdOrEmail` | src/user/user.service.ts:36 | the id-or-else-email argument names a user iff the id or the email is truthy; a truthy id wins, otherwise the email is passed as it is |
| `Users.ArgumentRoundTrip` | src/user/user.service.ts:35-36 | taking the id when truthy, else the email, gives the split argument back, except that id 0 becomes `undefined` |
| `Users.GetQueryObjectByIdOrEmail` | src/user/user.service.ts:93-100 | "Either id or email must be provided" exactly when both are falsy; otherwise by id when the id is truthy, else by email |
| `Users.QueryOfArg` | src/user/user.service.ts:79-80 | the query an argument is routed to exists iff the argument is a nonzero number or nonempty string, and matches exactly the records the argument names |
| `Users.Count` | src/user/user.service.ts:81 | the number of records a query matches is at most the number of records |
| `Users.CountPositive` | src/user/user.service.ts:81-84 | the match count is positive iff some stored record matches the query |
| `Users.FindFirst` | src/auth/auth.service.ts:59-63 | finds a matching record iff one exists, and it is the one with the least id |
| `Users.Exists` | src/user/user.service.ts:78-85 | refused for an argument naming nothing; otherwise true iff some stored record is the one the argument names |
| `Users.ThrowErrorIfNotExists` | src/user/user.service.ts:87-91 | "User not found" exactly when `exists` is false, `exists`'s own error when it fails, success when it is true; a function, so nothing changes |
| `Users.ExistsById` | src/user/user.service.ts:78-85 | on a well-keyed table, `exists` of id 0 is the bad request and of any other id is key membership |
| `Users.FalsyArgumentsRejected` | src/user/user.service.ts:93-96 | id 0 and email "" are each refused by `exists`, `throwErrorIfNotExists` and `getOne` with the bad request |
| `Users.GetOne` | src/user/user.service.ts:34-39 | bad request for an argument naming nothing, "User not found" when no record matches, otherwise a stored record the argument names |
| `Users.GetOneById` | src/user/user.service.ts:34-39 | `getOne` of a stored nonzero id returns exactly the record under that id |
| `Users.Patched` | src/user/user.service.ts:58-71 | absent fields keep their values; the password is rehashed only when a nonempty one is given; `updatedAt` becomes `now`; id and mail flag are kept |
| `Users.EmptyPatchOnlyStamps` | src/user/user.service.ts:63-68 | an update supplying nothing, or only an empty password, changes nothing but `updatedAt` |
| `Users.UserService.Create` | src/user/user.service.ts:16-28 | an empty or taken email is refused with the table unchanged; otherwise exactly one record is added under a fresh id, holding `Hash(password, salt)` |
| `Users.UserService.Update` | src/user/user.service.ts:58-71 | id 0 is a bad request and a missing id is "User not found", both with no change; otherwise only that record changes, to its `Patched` form |
| `Users.UserService.Delete` | src/user/user.service.ts:73-76 | id 0 is a bad request and a missing id is "User not found", both with no change; otherwise exactly that record is removed and returned |
| `Users.DeletedIdNotFound` | src/user/user.service.ts:73-76 | after a delete, the id no longer exists and every other record is still returned by `getOne` |
| `Auth.Public` | src/auth/auth.service.ts:74-79 | the user sent back carries the record's id, name, email and picture |
| `Auth.PublicHidesSecrets` | src/auth/auth.service.ts:74-79 | what is sent back about a record does not depend on its password hash, role or mail flag |
| `Auth.Login` | src/auth/auth.service.ts:58-82 | succeeds iff the first record with the email matches the password, answering with that record's public fields; every refusal is `Unauthorized("Invalid credentials")`; the token is a (login, users) token for 7 days |
| `Auth.LoginRefusalsAlike` | src/auth/auth.service.ts:65-71 | an unknown email and a wrong password give the identical error |
| `Auth.VerifyResetToken` | src/auth/auth.controller.ts:41-46 | true exactly when the token is one this server signed with issuer `forget` and audience `users` and has not yet expired |
| `Auth.ForgetTokenLifetime` | src/auth/auth.service.ts:88 | a reset token passes the reset check iff less than 31 minutes old, yields its email, and is refused as a login or mail-confirmation token |
| `Auth.ConfirmationTokenLifetime` | src/auth/auth.service.ts:174 | a confirmation token is valid for mail confirmation iff less than 7 days old and for no other flow; a login token never passes the reset check |
| `Auth.LoginAfterCreate` | src/auth/auth.service.ts:166-186 | after the record that `create` adds, login with its email and password succeeds and answers with that user |
| `Auth.LoginAfterReset` | src/auth/auth.service.ts:116-123 | after a reset, the new password logs in and every other password is refused |
| `Auth.ValidateMailIdempotent` | src/auth/auth.service.ts:149-156 | a second mail confirmation addresses the same record and leaves the table unchanged |
| `Auth.AuthService.Forget` | src/auth/auth.service.ts:84-105 | for a stored email with a delivered mail, exactly one reset mail with a (forget, users) 31-minute token is appended; otherwise a bad request carrying the original message; the table never changes |
| `Auth.AuthService.Reset` | src/auth/auth.service.ts:107-138 | a valid (forget, users) token naming a stored user changes only that record's password, to `Hash(password, salt)`; any failure is "Invalid token" with the table unchanged |
| `Auth.AuthService.ValidateMail` | src/auth/auth.service.ts:140-164 | a valid (mail-confirmation, users) token naming a stored user sets only that record's `isValidMail`, answering ok; any failure is "Invalid token" with the table unchanged |
| `Auth.AuthService.Register` | src/auth/auth.service.ts:166-187 | a refused `create` passes its error on unchanged; otherwise the record `create` describes (role defaulting to `User`) is added, and on delivery one (mail-confirmation, users) token is mailed and that record's public fields and a (login, users) token are returned; a mail failure leaves the record in place |

## Left out

- JWT signing and signature checking, and the bcrypt internals. These are library calls. The token is a datatype and the hash is symbolic.
- Token text: a reset link is a datatype holding the callback URL and the token. The URL string `callbackUrl?token=<jwt>` is not built.
- The database is an in-memory map. Lookups and updates by email address the matching record with the least id (`FindFirst`).
- Update (of `UserService`): does not model the database's unique constraint on `email`. In the program, an update that gives a record an email another record holds fails at the database. The model's `Update` succeeds and leaves two records with that email.
- The role a new record gets when the registration omits one is the database schema's default. The model uses `User`.
- The default value of `isValidMail` comes from the schema too. The model uses `false`.
- The record's creation time is left out. Its `updatedAt` is set to `now` on create and on update.
- `getAll` (`findMany`), the file upload service and the `uploadImage` handler: plain reads and external I/O.
- The controllers' routing, DTO validation (`IsEmail`, `IsStrongPassword`, `IsUrl`, `IsJWT`), module wiring and rate limiting. Only the `verify-reset-token` binding of `isValidToken` to the (forget, users) scope is modelled.
- The bearer-token guard and the user-id ownership middleware. Their sources (`src/shared/guards/auth.guard.ts`, `src/shared/middlewares/user-id-check.middleware.ts`) are not part of this model.
- The SMTP send itself and the Pug templates. A send is one entry appended to the outbox, or a failure with a message.
- Async scheduling and concurrent requests. Each operation runs atomically against the table.
- The constant-time behaviour of bcrypt's comparison.
- CompareHashed: bcrypt reads only the first 72 bytes of a password, so in the program two passwords that agree on those bytes both match the same hash. The symbolic hash compares the whole password.
- Salts are parameters supplied by the caller. That bcrypt draws a fresh salt for every hash is not modelled.
- A JavaScript `number` argument is an unbounded integer here. `NaN`, which is falsy and so refused like id 0, fractional ids and ids outside the database's integer range cannot be represented.
