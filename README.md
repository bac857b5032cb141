# Verified model of the boilerplate's authentication core

This project models the authentication flow of a NestJS/Next.js boilerplate in Dafny:

- the server's `AuthService`, which keeps a user table and implements signup,
  password login, Google login, passwordless login (a magic link plus a six-digit
  one-time code), token refresh and token-to-user lookup;
- the Next.js route guard, which sends visitors without an `accessToken` cookie
  from protected pages to `/login`;
- the Express middleware that copies the `accessToken` cookie into a bearer
  `authorization` header.

Layout, one module per file:

- `wrappers.dfy` defines `Option` and `Result`.
- `text.dfy` defines e-mail lower-casing.
- `otp.dfy` covers code generation, decimal rendering and the SHA-256 digest.
- `passwords.dfy` is a symbolic bcrypt. The password service is not part of this model.
- `jwt.dfy` holds signed, expiring tokens under three secrets, with the `1h`, `100d` and `15m` lifetimes.
- `auth.dfy` has the user table, its invariant, and every service operation as a pure transition `Store -> (Store, result)`.
- `auth_lemmas.dfy` proves properties of single transitions and of sequences of them.
- `auth_service.dfy` has the class `AuthService`. It holds the table as a `map` field, and its methods update that field in place, step by step as the source does. Each method is proved equal to its transition.
- `route_guard.dfy` is the client middleware.
- `jwt_cookie.dfy` is the cookie-to-header middleware, with a mutable request object and a `next` callback that counts its calls.

Modelling choices:

- Time is an integer number of seconds passed in as `now`.
- A JWT is `Signed(userId, secret, issuedAt, expiresAt)` or `Malformed`. Verification succeeds only under the token's own secret and while `now < expiresAt`.
- Digests and password hashes are free constructors, so they never collide.
- User ids come from a counter, standing in for the database default.
- The store's invariant (`Auth.Valid`) has three parts: each row sits under its own id, every e-mail is lower-case and unique, and Google ids are unique. Every operation preserves it.

Behaviour worth noting:

- `verifyMagicLink` does not consume anything. A magic link stays usable until it expires, even after the user has logged in (`AuthLemmas.MagicLinkFromMail`).
- A repeat OTP verification fails with `BadRequest` (`AuthLemmas.VerifyOtpSingleUse`).
- The generated code lies in [100000, 999998], because the upper bound of `randomInt` is exclusive.
- The error kinds are the exception classes the code throws: `Conflict`, `NotFound`, `BadRequest`, `Unauthorized`. Two more are added: the uncaught store error `UniqueViolation`, and `MailFailure` for the mail call.

## Model

| member | source | states |
|---|---|---|
| Text.Lower | server/src/auth/auth.service.ts:43 | lower-casing maps every character independently and keeps the length |
| Text.LowerIsLower | server/src/auth/auth.service.ts:138 | a lower-cased e-mail has no upper-case letter, and a lower-case one is left unchanged |
| Text.LowerIdempotent | server/src/auth/auth.resolver.ts:25 | lower-casing again, as `createUser` does after the resolver, changes nothing |
| Otp.GenerateOtp | server/src/auth/auth.service.ts:219-221 | the code is a 6-character digit string whose value is the random integer drawn from [100000, 999999) |
| Otp.GenerateOtpInjective | server/src/auth/auth.service.ts:220 | two draws give the same code exactly when they are the same integer |
| Otp.Decimal | server/src/auth/auth.service.ts:220 | the rendering of a number is a non-empty string of decimal digits |
| Otp.ValueOfDecimal | server/src/auth/auth.service.ts:220 | reading back the decimal string of a number gives the number |
| Otp.DecimalLength | server/src/auth/auth.service.ts:220 | a number in [10^k, 10^(k+1)) renders with k+1 digits |
| Otp.HashOtp | server/src/auth/auth.service.ts:224-226 | the digest is a symbolic SHA-256 image taken of exactly the given code |
| Otp.HashOtpInjective | server/src/auth/auth.service.ts:224-226 | digests of distinct codes differ (the digest is modelled collision-free) |
| Otp.VerifyHashedOtp | server/src/auth/auth.service.ts:229-231 | a code matches a digest exactly when the digest was taken of that code |
| Otp.VerifyOwnHash | server/src/auth/auth.service.ts:229-231 | `verifyHashedOTP(c, hashOTP(c))` always holds |
| Passwords.HashPassword | server/src/auth/auth.service.ts:35-37 | the stored hash uses the configured 10 bcrypt rounds and validates the password it was made from |
| Passwords.ValidatePassword | server/src/auth/auth.service.ts:75-78 | a user without a stored password hash never validates |
| Jwt.Sign | server/src/auth/auth.service.ts:145-151 | a signed token is expired at its issue time plus its lifetime, and does not verify under any other secret |
| Jwt.Verify | server/src/auth/auth.service.ts:176-178 | verification succeeds exactly on a token signed under that secret while `now` is before its `exp` (expired once `now >= exp`), and yields the token's user id |
| Jwt.VerifySigned | server/src/auth/auth.service.ts:261-263 | a freshly signed token verifies under its own secret until its lifetime has passed, is Expired afterwards, and has an invalid signature under any other secret |
| Auth.Valid | server/src/auth/auth.service.ts:51-57 | the table invariant (ids are keys, e-mails lower-case and unique, Google ids unique) leaves the next id free |
| Auth.EmailTaken | server/src/auth/auth.service.ts:51-57 | the unique constraint on `email` rejects a new row exactly when the e-mail is among the stored e-mails |
| Auth.FindByEmail | server/src/auth/auth.service.ts:67-69 | finds a row with exactly that e-mail, and finds none only when no row has it |
| Auth.FindByGoogleId | server/src/auth/auth.service.ts:94-96 | finds a row carrying that Google id, and finds none only when no row carries it |
| Auth.Insert | server/src/auth/auth.service.ts:136-141 | `create` adds exactly the new row under the next id and keeps every existing row |
| Auth.FindByEmailUnique | server/src/auth/auth.service.ts:193-195 | under the invariant the lookup returns the one row holding the e-mail |
| Auth.GenerateTokens | server/src/auth/auth.service.ts:234-256 | both tokens carry the user id; the access token verifies under its secret for 1h, the refresh token under its own for 100d, and neither under the other's |
| Auth.RefreshToken | server/src/auth/auth.service.ts:259-269 | succeeds exactly on a refresh-secret token before its expiry, giving a new pair for the same user; every failure is Unauthorized |
| Auth.Signup | server/src/auth/auth.service.ts:34-63 | preserves the invariant; the only failure is Conflict, which leaves the store unchanged |
| Auth.Login | server/src/auth/auth.service.ts:66-85 | fails only with NotFound or BadRequest and never changes the store |
| Auth.ResolveGoogleUser | server/src/auth/auth.service.ts:94-126 | preserves the invariant and never removes a row; on success the returned user is the stored row carrying the Google id, with tokens for its id; the only failure is the unique violation, with the store unchanged |
| Auth.GoogleLoginAsWritten | server/src/auth/auth.service.ts:88-127 | preserves the invariant; it can fail only with the unique-constraint error, leaving the store unchanged |
| Auth.GoogleLoginNormalized | server/src/auth/auth.service.ts:100-102 | with the e-mail lookup lower-cased, Google login always succeeds and preserves the invariant |
| Auth.FindOrCreateByEmail | server/src/auth/auth.service.ts:131-142 | returns the row holding the e-mail; it is created with the next id and role USER exactly when absent, and otherwise the store is unchanged |
| Auth.RequestPasswordless | server/src/auth/auth.service.ts:130-171 | the mailed token is a magic-link token for the located row; that row gets the code's digest and expiry now+15m; other rows are unchanged; the invariant holds |
| Auth.VerifyOtp | server/src/auth/auth.service.ts:192-216 | preserves the invariant and the set of rows; every failure leaves the store unchanged |
| Auth.VerifyMagicLink | server/src/auth/auth.service.ts:174-189 | succeeds exactly on a live magic-link token for an existing user, giving that user's tokens; a bad token and a missing user both give BadRequest |
| Auth.GetUserFromToken | server/src/auth/auth.service.ts:282-291 | Unauthorized exactly when the access token fails to verify; otherwise the named row, or none if it no longer exists |
| AuthLemmas.ValidLookupsUnique | server/src/auth/auth.service.ts:94-102 | under the invariant every row is the one found by its e-mail and by its Google id |
| AuthLemmas.SignupOutcome | server/src/auth/auth.service.ts:34-63 | Conflict exactly when the lower-cased e-mail is taken; otherwise one new row with the lower-cased e-mail, role USER and the password's hash (which validates the password), no other row touched, tokens for the new id |
| AuthLemmas.LoginOutcome | server/src/auth/auth.service.ts:66-85 | NotFound exactly when no row has the lower-cased e-mail; otherwise tokens for that row if the password validates, else BadRequest |
| AuthLemmas.SignupThenLogin | server/src/auth/auth.service.ts:66-85 | after a successful signup, login with any casing of the e-mail and the same password returns tokens for the new user |
| AuthLemmas.SignupTwiceConflicts | server/src/auth/auth.service.ts:50-58 | a second signup with the same lower-cased e-mail fails with Conflict and changes nothing |
| AuthLemmas.GoogleLoginOrder | server/src/auth/auth.service.ts:94-121 | a Google-id match is returned unchanged; otherwise an exact e-mail match gets only its Google id set; otherwise a new USER row with the lower-cased e-mail is created when that e-mail is free |
| AuthLemmas.GoogleUppercaseEmailNotLinked | server/src/auth/auth.service.ts:100-120 | a Google e-mail with an upper-case letter whose lower-cased form is registered is not linked; the create raises the unique violation |
| AuthLemmas.GoogleUppercaseEmailExample | server/src/auth/auth.service.ts:100-120 | the store holding `ann@x.io` and a profile `Ann@x.io` end in the unique violation |
| AuthLemmas.GoogleNormalizedLinksExisting | server/src/auth/auth.service.ts:104-109 | with the lookup lower-cased, that profile is linked to the existing row, which only gains the Google id |
| AuthLemmas.RequestPasswordlessEffect | server/src/auth/auth.service.ts:130-171 | afterwards exactly one row has the lower-cased e-mail, holding the new digest and expiry; it was created exactly when absent; other rows are unchanged; the mail goes to the e-mail as typed |
| AuthLemmas.RequestThenVerifyOtp | server/src/auth/auth.service.ts:199-215 | the mailed code verifies up to and including the expiry instant, clearing both OTP fields of that row only and returning its tokens |
| AuthLemmas.RequestThenVerifyFails | server/src/auth/auth.service.ts:199-204 | after the expiry any code is BadRequest; before it, a different code is Unauthorized; neither changes the store |
| AuthLemmas.VerifyOtpSingleUse | server/src/auth/auth.service.ts:206-213 | once a code was accepted, any later verification for that e-mail is BadRequest |
| AuthLemmas.VerifyOtpOutcome | server/src/auth/auth.service.ts:192-216 | on any table: NotFound exactly when no row has the lower-cased e-mail; otherwise BadRequest for a missing field or `now` past the expiry, then Unauthorized for a code whose digest differs, both with the store unchanged; otherwise that row's two OTP fields are cleared and its tokens returned |
| AuthLemmas.SecondRequestInvalidatesFirst | server/src/auth/auth.service.ts:161-167 | after a second request with a different code, the first code is rejected as Unauthorized |
| AuthLemmas.MagicLinkFromMail | server/src/auth/auth.service.ts:145-151 | the mailed magic link yields the user's tokens until 15 minutes have passed, and stays usable after the code was consumed |
| AuthLemmas.RefreshRoundTrip | server/src/auth/auth.service.ts:259-269 | a refresh token yields a new pair for its user until it expires, then Unauthorized; an access token never refreshes |
| AuthLemmas.TokenClassesSeparated | server/src/auth/auth.service.ts:174-189 | a magic-link token is neither a refresh nor an access token, and access or refresh tokens are not magic links |
| AuthServiceImpl.AuthService.FindUniqueByEmail | server/src/auth/auth.service.ts:193-195 | the lookup on the object's table finds the same row as the e-mail lookup on its value |
| AuthServiceImpl.AuthService.FindUniqueByGoogleId | server/src/auth/auth.service.ts:94-96 | the lookup on the object's table finds the same row as the Google-id lookup on its value |
| AuthServiceImpl.AuthService.CreateUser | server/src/auth/auth.service.ts:34-63 | keeps the table invariant; the new table and result are those of the signup transition |
| AuthServiceImpl.AuthService.Login | server/src/auth/auth.service.ts:66-85 | returns the login transition's result without changing the table |
| AuthServiceImpl.AuthService.ValidateGoogleUser | server/src/auth/auth.service.ts:88-127 | keeps the table invariant; the new table and result are those of the as-written Google transition |
| AuthServiceImpl.AuthService.SendMagicLink | server/src/auth/auth.service.ts:130-171 | the code is six digits from the random range; the new table and the mail are those of the passwordless transition; a failed mail call is reported after the table was written |
| AuthServiceImpl.AuthService.VerifyOtp | server/src/auth/auth.service.ts:192-216 | keeps the table invariant; the new table and result are those of the OTP transition |
| RouteGuard.StartsWith | client/middleware.ts:9 | `startsWith` holds exactly when the prefix fits in the path and agrees with it character by character |
| RouteGuard.AnyPrefix | client/middleware.ts:9 | some route is a prefix of the path |
| RouteGuard.IsProtected | client/middleware.ts:9 | a path is protected exactly when one of the three protected routes is a prefix of it |
| RouteGuard.IsProtectedIff | client/middleware.ts:4 | the protected paths are exactly those starting with `/dashboard`, `/profile` or `/settings` |
| RouteGuard.Middleware | client/middleware.ts:6-15 | redirects to `/login` exactly when the cookie is absent and the path is protected, and passes otherwise |
| RouteGuard.LoggedInAlwaysPasses | client/middleware.ts:7-14 | with the cookie every path passes |
| RouteGuard.UnprotectedAlwaysPasses | client/middleware.ts:9-14 | a path under no protected prefix passes with or without the cookie |
| RouteGuard.ExtensionsAreProtected | client/middleware.ts:9 | the guard function redirects any extension of a protected prefix without the cookie |
| RouteGuard.PlainPrefixExamples | client/middleware.ts:9 | the guard function redirects `/dashboardx` and `/profile-old` without the cookie and passes `/login` and `/` |
| JwtCookie.AttachBearer | server/src/auth/middleware/jwt-cookie.middleware.ts:7-10 | with a non-empty token and an absent or empty header the header becomes `Bearer ` + token; otherwise headers are unchanged; no other header ever changes |
| JwtCookie.AttachBearerIdempotent | server/src/auth/middleware/jwt-cookie.middleware.ts:8-9 | applying the rule twice equals applying it once |
| JwtCookie.NextFunction.Call | server/src/auth/middleware/jwt-cookie.middleware.ts:11 | each `next()` call adds exactly one to the call count |
| JwtCookie.JwtCookieMiddleware.Use | server/src/auth/middleware/jwt-cookie.middleware.ts:6-12 | the request's headers become the rule's result, cookies are unchanged, and `next` is called exactly once |

## Left out

- Cryptography: SHA-256, bcrypt and JWT signatures are symbolic constructors. The model assumes they never collide and that only the server can sign. It also assumes the three secrets are configured to different values.
- Randomness: the bcrypt salt is a parameter. The OTP integer is a nondeterministic choice in the range. Its uniform distribution is not modelled.
- Clocks: `now` is an integer in seconds. The millisecond precision of `Date` and the rounding of JWT `iat`/`exp` are not modelled.
- Lower-casing: only ASCII letters are mapped, not full Unicode `toLowerCase`. Strings are sequences of characters, not UTF-16 code units.
- Prisma errors: a duplicate e-mail is the only store failure modelled. Other errors, turned into InternalServerError by `createUser`, and failures of the hashing call are left out. Ids come from a counter instead of database defaults.
- Auth.Login: the password service is not part of this model. A user with no stored password hash is modelled as failing validation with BadRequest. bcrypt might throw instead.
- Mail: the mailer is an external call whose outcome is the `delivered` parameter. The message body and the `FRONTEND_URL` link format are not modelled; the mail carries the token itself.
- Resolvers and controllers: cookie setting, redirects and the missing-refresh-cookie check in the resolver are GraphQL/Express plumbing and are left out.
- `logout` does nothing on the server, and `validateUser` is the passport strategy's lookup by id; neither is modelled.
- Framework wiring: dependency injection, configuration apart from the lifetimes and bcrypt rounds, and the route guard's `config.matcher` routing table (client/middleware.ts:17-19) are left out. In the deployed app that matcher keeps paths such as `/dashboardx` or `/profile-old` away from the guard altogether, so `RouteGuard.PlainPrefixExamples` and `RouteGuard.ExtensionsAreProtected` describe the guard function, not which requests reach it.
- The request object: `cookie-parser` can turn a `j:` cookie into an object, but cookies and headers are modelled as string maps. The response object, which the middleware does not use, is omitted.
- E-mail comparison: every lookup by e-mail and the unique constraint compare strings exactly, case-sensitively, as a PostgreSQL column with its default collation does. The database schema is not part of this model; a case-insensitive collation would change the Google finding below.
- Concurrency: each operation is one atomic step on the table.
- AuthServiceImpl.AuthService.SendMagicLink: promises only that the code comes from the range, not how it is distributed.

## Findings

| source | as written | input that shows it | evidently intended | confidence | as-written member | corrected member |
|---|---|---|---|---|---|---|
| server/src/auth/auth.service.ts:100-102 | the link lookup uses `profile.email` unchanged, while every stored e-mail is lower-case and the create path lower-cases | a table holding `ann@x.io`, no row with Google id `g-1`, and a Google profile `g-1` / `Ann@x.io`: the lookup misses and the create violates the unique e-mail constraint, an uncaught error (this assumes the database compares e-mails case-sensitively, as PostgreSQL does by default) | look up `profile.email.toLowerCase()` so the existing account is linked | medium, not executed | AuthLemmas.GoogleUppercaseEmailNotLinked | Auth.GoogleLoginNormalized |
