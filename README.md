# Account token lifecycle, modelled in Dafny

This project models the core of an Express/Mongoose authentication service:

- the `User` schema with its setters, defaults and pre-save hook;
- the `User` instance methods: password check, JWT access and refresh tokens,
  and one-time verification/reset secrets;
- the ten authentication handlers (register, login, logout, email
  verification, resend, refresh, forgot password, reset password, change
  password, and the shared token-issuing helper);
- the `ApiResponse` envelope that every successful handler answers with.

Modules:

- `Common`: `Option` and user ids.
- `ApiResponses`: the envelope, plus the errors the handlers throw (400, 401,
  403, 404, 409, 489, 500).
- `Hex`: lowercase base16 (section 8 of RFC 4648), which is how
  `randomBytes(32).toString("hex")` renders the secret.
- `Crypto`: bcrypt and SHA-256, kept symbolic. A digest records its whole
  preimage, so equal digests mean equal inputs (bcrypt's 72-byte limit is
  listed under "Left out").
- `Jwt`: signed tokens (RFC 7519). A token carries its claims, its issue and
  expiry seconds, and the secret it was signed with. Verification rejects a
  foreign secret, and rejects the token once the current second reaches
  `exp`.
- `UserModel`: the stored `Account` record and the normalising setters
  (`lowercase`, `trim`). It holds the instance methods as functions, and
  `UserDocument`, a class for a loaded document whose `Save` runs the
  pre-save hook.
- `AuthSpec`: the store, a map from ids to accounts plus the next id to hand
  out. It holds `findOne`, which returns the earliest matching account, and one
  pure function per handler. Each such function takes the store before the
  request and gives the store after, the reply, and the mail sent.
- `AuthControllers`: `AuthService`, a class holding the mutable account
  collection, with one method per handler. On success, most methods load a
  document, assign its fields, save it, and write it back; `LogoutUser`
  updates the stored record directly, as `findByIdAndUpdate` does. Each is
  proved equal to its `AuthSpec` function and to keep the store invariant
  `Consistent`:
  - ids are below the next id;
  - usernames and emails are normalised and unique;
  - passwords are bcrypt hashes at 10 rounds;
  - token/expiry pairs are set together;
  - a verified account has no pending verification token;
  - a stored refresh token is the account's own.
- `AuthProperties`: the invariant lemmas and the lifecycle properties.

Quirks of the code that the model keeps:

- Login checks `isEmailVerified` before the password
  (src/controllers/auth.controllers.js:98-106). An unverified account
  therefore gets 403 whatever password is sent (`LoginErrorOrder`).
- A password change does not touch the stored refresh token
  (src/controllers/auth.controllers.js:359-361, `ChangePasswordOutcome`).
- The refresh token is assigned to, and compared with, the `refreshTokens`
  path as a whole string (src/controllers/auth.controllers.js:15 and :250),
  although the schema declares that path as `{ token: String }`
  (src/models/user.models.js:45-47).

## Model

| member | source | states |
|---|---|---|
| ApiResponses.NewApiResponse | src/utils/api-response.js:4-8 | status code and data are kept as given; the message is the given one or "Success"; `success` holds iff 200 <= statusCode < 300 |
| ApiResponses.SuccessIsStatusClass2xx | src/utils/api-response.js:8 | `success` holds exactly when the status code is in the 2xx class |
| ApiResponses.SuccessFlagExamples | src/utils/api-response.js:8 | 200 and 201 are successes; 401, 403, 409 and 489 are not |
| ApiResponses.ErrorsAreNeverSuccess | src/utils/api-response.js:8 | an envelope carrying any status code the handlers throw is never a success |
| ApiResponses.ApiError.StatusCode | src/controllers/auth.controllers.js:33 | every thrown status is a 4xx or 5xx code |
| Hex.DigitValue | src/models/user.models.js:102 | the value of a lowercase hex digit is the number whose digit it is |
| Hex.Encode | src/models/user.models.js:102 | hex rendering has two lowercase hex digits per byte |
| Hex.DecodeEncode | src/models/user.models.js:102 | decoding the hex rendering of bytes gives the bytes back |
| Hex.EncodeDecode | src/models/user.models.js:102 | a string that decodes to some bytes is their hex rendering |
| Hex.EncodeInjective | src/models/user.models.js:102 | different bytes render as different hex strings |
| Crypto.PwHash | src/models/user.models.js:70 | the stored hash uses 10 salt rounds |
| Crypto.PwCheckHash | src/models/user.models.js:75-77 | bcrypt's compare accepts a candidate iff it is the hashed password |
| Crypto.PwCheck | src/models/user.models.js:76 | for a 10-round digest, `bcrypt.compare` accepts a candidate iff hashing the candidate gives the stored digest |
| Crypto.TokHash | src/models/user.models.js:105-108 | the hex SHA-256 digest is a function of the secret alone and records it, so equal digests come from equal secrets; the same digest is computed at src/controllers/auth.controllers.js:165-168 and 319-322 |
| Crypto.TokHashInjective | src/models/user.models.js:105-108 | different secrets have different SHA-256 hex digests |
| Jwt.Sign | src/models/user.models.js:82-95 | a signed token carries the claims and secret given, is issued at the current second, and expires `expiresIn` seconds later |
| Jwt.Verify | src/controllers/auth.controllers.js:239-242 | `jwt.verify` accepts exactly a signed token checked with its own secret strictly before its expiry second, and yields that token's claims; a token signed with another secret is rejected for its signature |
| Jwt.VerifySigned | src/controllers/auth.controllers.js:239-242 | a token verifies, yielding its claims, iff checked with its own secret strictly before its expiry second |
| Jwt.SignDiffersAcrossSeconds | src/models/user.models.js:91-95 | tokens signed in different seconds differ |
| UserModel.TrimStartShape | src/models/user.models.js:22 | trimming the start removes exactly a run of leading white space |
| UserModel.TrimEndShape | src/models/user.models.js:22 | trimming the end removes exactly a run of trailing white space |
| UserModel.Normalize | src/models/user.models.js:17-32 | the `lowercase` and `trim` setters leave no upper-case letter and no white space at either end |
| UserModel.LowerThenTrimShape | src/models/user.models.js:21-22 | lowercasing then trimming leaves no upper-case letter and no white space at either end |
| UserModel.NormalizeIdempotent | src/models/user.models.js:17-32 | normalising twice is the same as normalising once |
| UserModel.Defaults | src/models/user.models.js:41-44 | a new account keeps the given username, email and password; `isEmailVerified` is false and every token and expiry is unset |
| UserModel.RequiredFieldsPresent | src/models/user.models.js:17-40 | the `required` validators fail iff the username, the email or the password is empty |
| UserModel.IsPasswordCorrect | src/models/user.models.js:75-77 | for an account whose hash is of `p`, the check holds iff the candidate is `p` |
| UserModel.GenerateAccessToken | src/models/user.models.js:82-88 | the payload is id, email and username; it verifies under the access secret iff its lifetime is positive, and never under the refresh secret |
| UserModel.GenerateRefreshToken | src/models/user.models.js:91-95 | the payload is the id alone; it verifies under the refresh secret iff its lifetime is positive, and never under the access secret |
| UserModel.GenerateTemporaryTokens | src/models/user.models.js:101-113 | the secret is 64 lowercase hex digits that decode to the random bytes; the stored digest is its SHA-256; the expiry is now + 600000 ms |
| UserModel.TemporaryTokensDistinct | src/models/user.models.js:101-113 | different random bytes give different secrets and different digests |
| UserModel.UserDocument.Create | src/models/user.models.js:17-44 | a new document has normalised username and email, a modified plain password, `isEmailVerified` false and no tokens |
| UserModel.UserDocument.Hydrate | src/models/user.models.js:5-65 | a loaded document holds the stored record with an unmodified password |
| UserModel.UserDocument.SetPassword | src/controllers/auth.controllers.js:333 | assigning a password stores the plain text and marks the path modified |
| UserModel.UserDocument.PreSave | src/models/user.models.js:68-72 | the hook replaces the password by its 10-round hash iff it was modified, and otherwise leaves it alone |
| UserModel.UserDocument.Save | src/models/user.models.js:68-72 | saving runs the hook and writes every field of the document, the password as a hash |
| AuthSpec.FindOne | src/controllers/auth.controllers.js:28-30 | `findOne` returns the earliest account that matches the filter, and nothing iff none matches |
| AuthSpec.Public | src/controllers/auth.controllers.js:113-115 | the projected account carries the id, username, email and `isEmailVerified` of the stored record, and no password, token or expiry |
| AuthSpec.IssueTokens | src/controllers/auth.controllers.js:9-22 | issuing succeeds iff the account exists; it returns the access token for the account's id, email and username and the refresh token for its id, and stores that refresh token in place of the previous one, changing nothing else |
| AuthSpec.Matches | src/controllers/auth.controllers.js:170-173 | email and username filters compare the stored value; a token filter matches a record iff it holds that digest with an expiry strictly after now, so never one without an expiry |
| AuthSpec.RegisterUser | src/controllers/auth.controllers.js:24-82 | a refusal (409 or 500) changes nothing and sends no mail; success answers 201 with the new account's id, stores the account under that id, advances the next id, and mails the account's email address |
| AuthSpec.LoginUser | src/controllers/auth.controllers.js:84-136 | never mails; a failure changes nothing; success answers 200 only for a verified account whose password matches, with a refresh token for that account which is now the stored one |
| AuthSpec.LogoutUser | src/controllers/auth.controllers.js:138-157 | always answers 200 without mail; the account's stored refresh token is unset |
| AuthSpec.VerifyEmail | src/controllers/auth.controllers.js:159-191 | never mails; a failure changes nothing; success answers 200 with `isEmailVerified` true |
| AuthSpec.ResendEmailVerification | src/controllers/auth.controllers.js:193-228 | a failure changes nothing and sends no mail; success needs an existing account, mails a secret and stores its digest as the pending verification token |
| AuthSpec.IncomingRefreshToken | src/controllers/auth.controllers.js:231-232 | the cookie's token is used when it is present and non-empty, the body's otherwise |
| AuthSpec.RefreshAccessToken | src/controllers/auth.controllers.js:230-278 | every failure is 401 and changes nothing; success answers 200 only for the token the account has stored, and stores the new refresh token it returns |
| AuthSpec.ForgotPasswordRequest | src/controllers/auth.controllers.js:280-313 | a failure is 404 and changes nothing; success mails a secret |
| AuthSpec.ResetForgotPassword | src/controllers/auth.controllers.js:315-346 | never mails; a failure is 489 and changes nothing |
| AuthSpec.ChangeCurrentPassword | src/controllers/auth.controllers.js:348-370 | never mails; a failure changes nothing; success needs the right old password, stores the hash of the new one and keeps the stored refresh token |
| AuthProperties.FindOneOnly | src/controllers/auth.controllers.js:170-173 | when exactly one account matches a filter, `findOne` returns it |
| AuthProperties.FindByEmail | src/controllers/auth.controllers.js:91 | emails are unique, so a lookup by an account's email finds that account |
| AuthProperties.IssueKeepsConsistent | src/controllers/auth.controllers.js:9-22 | storing a freshly issued refresh token keeps the store invariant |
| AuthProperties.RegisterKeepsConsistent | src/controllers/auth.controllers.js:24-82 | registration keeps usernames and emails unique and the store invariant |
| AuthProperties.LoginKeepsConsistent | src/controllers/auth.controllers.js:84-136 | login keeps the store invariant |
| AuthProperties.LogoutKeepsConsistent | src/controllers/auth.controllers.js:138-157 | logout keeps the store invariant |
| AuthProperties.VerifyEmailKeepsConsistent | src/controllers/auth.controllers.js:159-191 | verification keeps the store invariant, in particular that a verified account has no pending token |
| AuthProperties.ResendKeepsConsistent | src/controllers/auth.controllers.js:193-228 | resending keeps the store invariant |
| AuthProperties.RefreshKeepsConsistent | src/controllers/auth.controllers.js:230-278 | refresh keeps the store invariant |
| AuthProperties.ForgotKeepsConsistent | src/controllers/auth.controllers.js:280-313 | a reset request keeps the store invariant |
| AuthProperties.ResetKeepsConsistent | src/controllers/auth.controllers.js:315-346 | a reset keeps the store invariant |
| AuthProperties.ChangePasswordKeepsConsistent | src/controllers/auth.controllers.js:348-370 | a password change keeps the store invariant |
| AuthProperties.RegisterConflict | src/controllers/auth.controllers.js:27-34 | registration answers 409 iff some account has the normalised username or email; a refusal changes nothing and sends no mail |
| AuthProperties.RegisterCreatesUnverified | src/controllers/auth.controllers.js:36-82 | success happens iff there is no clash and the required fields are present; it adds one unverified account under a fresh id with the hashed password, a verification digest of the mailed 64-digit secret expiring in ten minutes, and answers 201 |
| AuthProperties.RegisterIgnoresRole | src/controllers/auth.controllers.js:25 | the `role` sent has no effect |
| AuthProperties.LoginUnknownEmail | src/controllers/auth.controllers.js:87-95 | no email gives 400, an email no account has gives 401, and neither changes anything |
| AuthProperties.LoginErrorOrder | src/controllers/auth.controllers.js:97-106 | for the account with the email: unverified gives 403 whatever the password, then a wrong password gives 401; failures change nothing |
| AuthProperties.LoginRotates | src/controllers/auth.controllers.js:108-136 | a successful login answers 200 with both tokens and stores exactly the new refresh token, nothing else changing |
| AuthProperties.RefreshOutcome | src/controllers/auth.controllers.js:230-278 | refresh succeeds iff a token is presented (cookie first), verifies under the refresh secret before expiry, names an existing account, and equals that account's stored token; every failure is 401 and changes nothing; success stores the new refresh token |
| AuthProperties.SupersededRefreshRejected | src/controllers/auth.controllers.js:250-252 | any refresh token other than the stored one is refused with 401 |
| AuthProperties.LoginInvalidatesEarlierRefresh | src/controllers/auth.controllers.js:108-110 | after a login, every other refresh token for the account is refused |
| AuthProperties.RefreshTokenSingleUse | src/controllers/auth.controllers.js:250-255 | a refresh token accepted once is refused afterwards, unless it was issued in the same second as its replacement |
| AuthProperties.SameSecondLoginsShareToken | src/models/user.models.js:91-95 | two logins in the same second store the same refresh token, so the first one's token still works |
| AuthProperties.LogoutClears | src/controllers/auth.controllers.js:138-157 | logout answers 200 and unsets the stored refresh token and nothing else; logging out twice equals logging out once |
| AuthProperties.LogoutEndsSession | src/controllers/auth.controllers.js:140-144 | after logout every refresh token of the account is refused with 401 |
| AuthProperties.VerifyEmailOutcome | src/controllers/auth.controllers.js:159-176 | verification succeeds iff the token is non-empty and some account holds its digest with an expiry strictly after now; otherwise 400 or 489 with nothing changed |
| AuthProperties.VerifyEmailConsumes | src/controllers/auth.controllers.js:178-191 | success marks that account verified and clears its token and expiry, and nothing else |
| AuthProperties.VerifyEmailSingleUse | src/controllers/auth.controllers.js:170-181 | a used verification token is refused with 489 ever after |
| AuthProperties.VerifyEmailExpired | src/controllers/auth.controllers.js:172 | a matching token is refused with 489 from its expiry instant on, that instant included |
| AuthProperties.ResendOutcome | src/controllers/auth.controllers.js:193-228 | unknown account gives 404, verified gives 409, both changing nothing; otherwise the pair is overwritten with the digest of the mailed secret and a ten-minute expiry |
| AuthProperties.ResendInvalidatesPrevious | src/controllers/auth.controllers.js:205-207 | after a resend the account matches no secret but the one just mailed |
| AuthProperties.ForgotOutcome | src/controllers/auth.controllers.js:280-313 | an email no account has gives 404 and changes nothing; otherwise that account's reset pair is overwritten with the digest of the mailed secret and a ten-minute expiry |
| AuthProperties.ForgotInvalidatesPrevious | src/controllers/auth.controllers.js:290-295 | after a new reset request the account matches no reset secret but the one just mailed |
| AuthProperties.ResetOutcome | src/controllers/auth.controllers.js:315-331 | a reset succeeds iff some account holds the token's digest with an expiry strictly after now; otherwise 489 with nothing changed |
| AuthProperties.ResetConsumes | src/controllers/auth.controllers.js:333-345 | success stores the hash of the new password and clears the reset pair, leaving the session alone |
| AuthProperties.ResetSingleUse | src/controllers/auth.controllers.js:324-337 | a used reset token is refused with 489 ever after |
| AuthProperties.ChangePasswordOutcome | src/controllers/auth.controllers.js:348-370 | a wrong old password gives 401 and changes nothing; a right one stores the hash of the new password and leaves the refresh token as it was |
| AuthProperties.ChangePasswordThenLogin | src/controllers/auth.controllers.js:353-361 | after a change, login with the old password gives 401 and login with the new one succeeds |
| AuthProperties.Lifecycle | src/controllers/auth.controllers.js:24-191 | on a fresh store: register, verify within ten minutes, log in and log out all succeed; the link cannot be replayed; the login's refresh token is refused after logout |
| AuthControllers.AuthService.constructor | src/models/user.models.js:115 | the service starts with no accounts and keeps the invariant |
| AuthControllers.AuthService.GenerateAccessTokenAndRefreshToken | src/controllers/auth.controllers.js:9-22 | loads, assigns and saves the account, with the same result and new state as `IssueTokens` |
| AuthControllers.AuthService.StoreVerificationToken | src/controllers/auth.controllers.js:44-50 | the saved record is the document as it was with the new verification digest and expiry from `generateTemporaryTokens` |
| AuthControllers.AuthService.RegisterUser | src/controllers/auth.controllers.js:24-82 | creates, saves, adds the verification pair and saves again; reply, mail and new store are those of `AuthSpec.RegisterUser`; the invariant holds |
| AuthControllers.AuthService.LoginUser | src/controllers/auth.controllers.js:84-136 | reply and new store are those of `AuthSpec.LoginUser`; the invariant holds |
| AuthControllers.AuthService.LogoutUser | src/controllers/auth.controllers.js:138-157 | reply and new store are those of `AuthSpec.LogoutUser`; the invariant holds |
| AuthControllers.AuthService.VerifyEmail | src/controllers/auth.controllers.js:159-191 | reply and new store are those of `AuthSpec.VerifyEmail`; the invariant holds |
| AuthControllers.AuthService.ResendEmailVerification | src/controllers/auth.controllers.js:193-228 | reply, mail and new store are those of `AuthSpec.ResendEmailVerification`; the invariant holds |
| AuthControllers.AuthService.RefreshAccessToken | src/controllers/auth.controllers.js:230-278 | reply and new store are those of `AuthSpec.RefreshAccessToken`; the invariant holds |
| AuthControllers.AuthService.ForgotPasswordRequest | src/controllers/auth.controllers.js:280-313 | reply, mail and new store are those of `AuthSpec.ForgotPasswordRequest`; the invariant holds |
| AuthControllers.AuthService.ResetForgotPassword | src/controllers/auth.controllers.js:315-346 | reply and new store are those of `AuthSpec.ResetForgotPassword`; the invariant holds |
| AuthControllers.AuthService.ChangeCurrentPassword | src/controllers/auth.controllers.js:348-370 | reply and new store are those of `AuthSpec.ChangeCurrentPassword`; the invariant holds |

## Left out

- Mongoose itself: connections, indexes, schema validation other than the `required` checks, and the database's own unique-index enforcement. The store is a map, and uniqueness is the invariant `Consistent`, kept because registration looks for clashes first.
- Concurrency: two requests racing between `findOne` and `save` are not modelled. Each handler runs atomically.
- bcrypt, SHA-256 and JWT signing are symbolic. A digest or a signature records what it was made from, so SHA-256 digests of different secrets differ and a token cannot be forged without the secret.
- Crypto.PwCheckHash: bcrypt reads only the first 72 bytes of a password, so in the source a candidate that agrees with the password on those bytes is also accepted. The model compares whole passwords; the "only if" halves of `Crypto.PwCheckHash` and `UserModel.IsPasswordCorrect` hold for an ideal hash.
- Crypto.PwHash: real bcrypt draws a fresh random salt for every hash, so two hashes of the same password differ in the source. The model's hash is deterministic; whole-store equalities such as `RegisterIgnoresRole` and the `password == PwHash(new)` clauses hold up to the salt.
- AuthProperties.ChangePasswordThenLogin: the old password is refused only when it differs from the new one within the first 72 bytes in the source; the model assumes whole-password comparison.
- UserModel.GenerateAccessToken: ACCESS_TOKEN_SECRET and REFRESH_TOKEN_SECRET are two environment variables that nothing forces apart. The model assumes they differ; "never verifies under the refresh secret" here and "never under the access secret" in `UserModel.GenerateRefreshToken` depend on that assumption.
- Randomness and the clock: `randomBytes(32)` and `Date.now()` become the parameters `entropy` and `nowMs`.
- Configuration: the two token lifetimes in the environment become `Config`, with `expiresIn` in seconds. The two secrets are the fixed values `AccessTokenSecret` and `RefreshTokenSecret` of `Jwt.SigningKey`.
- HTTP: cookies and their options, `res.status`, URLs built from `req.protocol`/`host`, and the redirect URL are not modelled. The mail is the recipient, subject, username and secret it carries.
- `sendEmail` and the Mailgen templates (src/utils/mail.js) are not part of this model. A mail is a value in the result, assumed to be sent without failing.
- The authentication middleware that sets `req.user` is not part of this model; handlers that read `req.user._id` take the id as a parameter.
- Error message strings are not modelled. An error is its status code; success messages are kept as constants.
- `getCurrentUser`, the routes, the request validators, the health check, `asyncHandler`, app and server start-up: outside the modelled core.
- The `avatar`, `fullname` and timestamp fields: no handler in the core reads or writes them.
- AuthSpec.RegisterUser: a failing `required` validator makes `User.create` (src/models/user.models.js:19, 27, 39) throw a Mongoose ValidationError, not an ApiError; its status depends on error middleware that is not part of this model. The model answers 500.
- AuthSpec.RegisterUser: the closing `findById` re-read, whose 500 cannot happen after a successful save, is not modelled. The response body omits the reset pair that the source's field selection would let through.
- UserModel.Normalize: lowercasing covers ASCII letters only. Unicode case mapping beyond ASCII is not modelled.
- UserModel.UserDocument.PreSave: Mongoose's treatment of an assignment of the same value as "not modified" is not modelled. Every assignment counts as a modification.
- UserModel.Account: `refreshTokens` holds the last token assigned. The casting of a string onto the schema's `{ token: String }` path is not modelled.
- The 401 a request with a missing or foreign user would get from the middleware: `ChangeCurrentPassword` on an id with no account answers 500, as the null dereference in the source would.
- AuthSpec.FindOne: an unsorted `findOne` promises no order; the model returns the matching account with the least id. The properties that depend on which account is found (`VerifyEmailConsumes`, `ResetConsumes` and the single-use lemmas) assume only one account holds a given digest, that is, that the 32 random bytes were not drawn twice.
