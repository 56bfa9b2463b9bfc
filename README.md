# Trip-Buddy authentication core, modelled in Dafny

This project models the two controllers that hold the decision logic of the Trip-Buddy
web API:

- `controllers/authController.js`: session issue (`createAndSendToken`), `login`, the
  `protect` and `restrictTo` middleware, password change (`updatePassowrd`), and the
  two-phase password reset (`forgotPassword` / `resetPassword`).
- `controllers/errorController.js`: the global error handler. It defaults `statusCode`
  and `status`. In development it echoes the error. In production it classifies the
  error (CastError, duplicate key 11000, ValidationError, JsonWebTokenError,
  TokenExpiredError) and discloses only operational errors. In any other mode it sends
  nothing.

Files, one module each:

- `wrappers.dfy`: `Option`.
- `text.dfy`: JavaScript `split` on one character and `join`, with their round trip.
- `quoted.dfy`: the first match of the quoted-substring regular expression used on
  duplicate-key messages. It is proved leftmost and lazy, and null exactly when no
  match exists.
- `errors.dfy`: the error record, the `handle*` mappings, both senders, and the
  dispatcher.
- `users.dfy`: the user record, and the store as a class over `map<UserId, User>`
  with lookups by email and by reset-token hash, and `save()`.
- `auth.dfy`: the handlers. A handler that writes the store is a method with
  `modifies db`. It returns `Ok(reply)` or `Err(error)`, where the error is the record
  the error handler receives.
- `properties.dfy`: properties across several calls. A reset token redeems once. A
  failed delivery leaves nothing redeemable. A login session opens `protect`. Every
  `protect` refusal reaches a production client as a 401.

The libraries the controllers call are fields of a `Services` value passed in:

- `jsonwebtoken`'s sign and verify; verify yields `id` and `iat`, or
  JsonWebTokenError / TokenExpiredError;
- the SHA-256 fingerprint;
- the user model's `checkPassword` and `changedPasswordAfter`;
- the validators `save()` runs on the password and its confirmation.

The properties that need more of these collaborators, or of the store, state it as an
explicit precondition:

- `AuthProperties.RequestThenRedeem`: an injective fingerprint; no record already holds
  the hash of the new raw token; no record already redeems the other token; the
  validators accept the new password and its confirmation.
- `AuthProperties.RedeemTwice`: no two records hold the same reset hash.
- `AuthProperties.LoginThenProtect`: tokens are non-empty, space-free, and verify when
  issued; no stored user's password changed after the `iat` of a token issued now.

Other inputs are parameters:

- the clock (`now`, in milliseconds);
- the raw reset token (the randomness of `createPasswordResetToken`);
- whether the mail was delivered;
- the request's protocol and host;
- `NODE_ENV` and `JWT_COOKIE_EXPIRES_IN` (the `Config` record).

## Model

| member | source | states |
|---|---|---|
| `Text.Split` | controllers/authController.js:74 | `split(' ')` yields at least one piece |
| `Text.SplitPiecesAvoidSeparator` | controllers/authController.js:74 | no piece of a split holds the separator |
| `Text.JoinSplit` | controllers/authController.js:74 | joining the pieces with the separator restores the header |
| `Text.SplitWithoutSeparator` | controllers/authController.js:74 | a string without the separator is its own single piece |
| `Text.SplitAtFirstSeparator` | controllers/authController.js:74 | the first piece ends at the first separator; the rest is the split of what follows |
| `Text.JoinWith` | controllers/errorController.js:16 | `join` starts with the first part; `Text.JoinSplit` and `Text.JoinAppend` fix the rest |
| `Text.StartsWith` | controllers/authController.js:73 | `startsWith(prefix)` holds only when the string is the prefix followed by its remainder; `AuthController.ExtractToken` states its use |
| `Text.JoinAppend` | controllers/errorController.js:16 | `join` of two non-empty lists is the two joins with the separator between |
| `QuotedScan.CloseFrom` | controllers/errorController.js:9 | the lazy scan returns only a position after its start that holds the quote |
| `QuotedScan.FindFrom` | controllers/errorController.js:9 | a match found opens before it closes, within the message |
| `QuotedScan.CloseFromCorrect` | controllers/errorController.js:9 | the scan stops at the first unit boundary holding the quote, and fails only when no boundary holds it |
| `QuotedScan.FindFromCorrect` | controllers/errorController.js:9 | the match found is a regex match, no earlier start has one, and no earlier close exists at its start |
| `QuotedScan.FirstQuotedCorrect` | controllers/errorController.js:9 | `match(...)[0]` is the leftmost, lazy match; it is null exactly when the message holds no match |
| `QuotedScan.FirstQuoted` | controllers/errorController.js:9 | `match(...)[0]` is present exactly when the message holds a match; `QuotedScan.FirstQuotedCorrect` fixes which one |
| `QuotedScan.FirstQuotedIsQuoted` | controllers/errorController.js:9 | the matched text opens and closes with the same quote around an escaped run |
| `ErrorController.WithDefaults` | controllers/errorController.js:54-55 | `statusCode` becomes 500 and `status` 'error' only when falsy; existing values and every other field are kept |
| `ErrorController.AppError` | controllers/authController.js:58 | operational, with the given message and code; status 'fail' exactly for a 4xx code; never reclassified in production, and left alone by the defaulting when the code is non-zero |
| `ErrorController.HandleCastErrorDB` | controllers/errorController.js:3-6 | a 400 disclosed in production with the message "Invalid <path>: <value>." (`undefined` for a missing property) |
| `ErrorController.DuplicateValue` | controllers/errorController.js:9 | a value exactly when `msg` is present and holds a quoted match |
| `ErrorController.HandleDuplicateFieldsDB` | controllers/errorController.js:8-12 | defined exactly when the match exists (otherwise the handler throws); then a 400 disclosed in production naming the quoted value |
| `ErrorController.ValidationMessage` | controllers/errorController.js:15-16 | starts with "Invalid input data. "; `ValidationMessageSingle` and `ValidationMessageAppend` fix the rest |
| `ErrorController.HandleValidationErrorDB` | controllers/errorController.js:14-18 | defined exactly when `errors` is present (otherwise `Object.values` throws); then a 400 disclosed in production with the joined field messages |
| `ErrorController.HandleJWTError` | controllers/errorController.js:20 | a 401 disclosed in production with "Invalid Token. Please login again"; `GlobalErrorHandler` uses it for every JsonWebTokenError |
| `ErrorController.HandleJWTExpiredError` | controllers/errorController.js:22 | a 401 disclosed in production with "Login session expired. Please login again"; `GlobalErrorHandler` uses it for every TokenExpiredError |
| `ErrorController.Messages` | controllers/errorController.js:15 | the field messages, one per field, in field order |
| `ErrorController.SendErrorDev` | controllers/errorController.js:24-31 | the error's own code, status, record and message; `DevRevealsWhatProdWithholds` contrasts it with production |
| `ErrorController.SendErrorProd` | controllers/errorController.js:33-51 | always a client-safe body; `ProdConceals` states what it can reveal |
| `ErrorController.ProdConceals` | controllers/errorController.js:33-51 | production reveals nothing of a non-operational error (any two get the same reply), and of an operational one only its code, status and message |
| `ErrorController.DevRevealsWhatProdWithholds` | controllers/errorController.js:24-51 | a programming error's record and own message are sent in development; production sends a 500 without that message |
| `ErrorController.GlobalErrorHandler` | controllers/errorController.js:53-70 | defaulting; the development echo; no response outside development and production; in production the outcome of every combination of name and code 11000, including when the last handler wins and when a handler throws |
| `ErrorController.ValidationMessageSingle` | controllers/errorController.js:14-18 | one field gives "Invalid input data. " followed by its message |
| `ErrorController.ValidationMessageAppend` | controllers/errorController.js:14-18 | field messages are joined with ". " in field order |
| `Users.Public` | controllers/authController.js:19 | `user.password = undefined`, and the document a default query such as `findById` at line 84 returns: the password omitted and nothing else |
| `Users.ClearResetFields` | controllers/authController.js:170-171 | both reset fields cleared, nothing else; no token matches the record |
| `Users.UserStore.FindByEmail` | controllers/authController.js:61 | a record with that email, or none exists |
| `Users.UserStore.FindByResetToken` | controllers/authController.js:159-162 | a record holding the hash with expiry after now, or none exists |
| `Users.UserStore.Save` | controllers/authController.js:121 | the record is written back and the rest of the store is unchanged |
| `AuthController.ExtractToken` | controllers/authController.js:72-80 | a token exists exactly for a header starting with "Bearer" whose second space-separated piece is non-empty, and is that piece; it holds no space |
| `AuthController.BearerRoundTrip` | controllers/authController.js:72-75 | "Bearer " followed by any non-empty space-free token yields that token |
| `AuthController.TrailingPiecesIgnored` | controllers/authController.js:73-74 | "Bearer", a space-free suffix, a space, the token, a space and anything yields the token: only the second piece counts |
| `AuthController.BareBearerHasNoToken` | controllers/authController.js:73-80 | the header "Bearer" alone yields no token |
| `AuthController.DoubleSpaceHasNoToken` | controllers/authController.js:74-80 | "Bearer" and two spaces leave an empty second piece, hence no token |
| `AuthController.JwtError` | controllers/authController.js:82 | the rejection of `jwt.verify`: not operational, without a status code, recognised by name in production, carrying the library's message |
| `AuthController.SaveRejected` | controllers/authController.js:172 | the ValidationError `save()` rejects with, here and at line 192: not operational, holding the field errors, message "User validation failed: …"; `UpdatePassword` and `ResetPassword` state when it is raised |
| `AuthController.NullUser` | controllers/authController.js:185 | the TypeError of `checkPassword` on a null user: a programming error, answered in production with the generic 500; `UpdatePassword` states when it is raised |
| `AuthController.CreateAndSendToken` | controllers/authController.js:16-37 | token signed for the user at now; password removed from the user sent; cookie `jwt` expires at now + days × 86,400,000 ms, always HTTP-only, secure iff production |
| `AuthController.Login` | controllers/authController.js:53-67 | missing or empty credentials give 400 before any lookup; an unknown email and a wrong password give the same 401; credentials every record with that email accepts always succeed; success only for a record with that email whose password checks, with a 200 session |
| `AuthController.Protect` | controllers/authController.js:69-97 | the ordered checks: no token 401, verify failure passed on, missing user 401, password changed 401; access granted, with `req.user` the record without password, exactly when all pass |
| `AuthController.RestrictTo` | controllers/authController.js:99-110 | continues exactly when the user's role is listed, otherwise 403; `RestrictToReadsRolesAsSet` and `RestrictToMonotone` state how the list is read |
| `AuthController.RestrictToReadsRolesAsSet` | controllers/authController.js:99-103 | the order and repetition of the listed roles do not change the decision |
| `AuthController.RestrictToMonotone` | controllers/authController.js:99-108 | listing more roles never revokes access; the decision depends on the user's role alone |
| `AuthController.UpdatePassword` | controllers/authController.js:180-196 | missing user is a TypeError; a wrong current password gives 401 with the store unchanged; otherwise the new password is saved, if the validators pass, and a session issued |
| `AuthController.WithResetToken` | controllers/authController.js:120 | the record holds the reset hash with the expiry now + ten minutes, so the token matches now; nothing else changes |
| `AuthController.ResetUrl` | controllers/authController.js:124 | the link starts with the request's protocol and ends with the raw token |
| `AuthController.ResetMail` | controllers/authController.js:124-131 | the mail goes to the user's email with the ten-minute subject, and its text carries the reset link |
| `AuthController.ClearResetFieldsAsWritten` | controllers/authController.js:139-140 | only the expiry is cleared; the hash stays, yet no token matches the record |
| `AuthController.ForgotPassword` | controllers/authController.js:112-150 | unknown email 404 with nothing written; else the hash is saved before the mail with the raw token goes out; delivered gives 200; failure gives 500 and clears only the expiry |
| `AuthController.Redeemed` | controllers/authController.js:168-171 | new password set, both reset fields cleared, nothing else changed |
| `AuthController.ResetPassword` | controllers/authController.js:152-178 | one 400 "Token is invalid or has expired!" for unknown and expired tokens; a match with passing validators is redeemed, clearing both fields, with a session; every failure leaves the store unchanged |
| `AuthProperties.AsWrittenLeavesStaleHash` | controllers/authController.js:139-141 | after a failed delivery the hash survives without an expiry |
| `AuthProperties.IntendedClearsEverything` | controllers/authController.js:139-141 | clearing both fields leaves a consistent record that nothing redeems |
| `AuthProperties.RedeemTwice` | controllers/authController.js:159-171 | with unique reset hashes, a second redemption of a redeemed token fails 400 |
| `AuthProperties.RequestThenRedeem` | controllers/authController.js:112-178 | the request succeeds exactly when the mail is delivered to an existing email; with a new password the validators accept, the mailed token redeems once within ten minutes, for the requester's account, which then holds the new password with both reset fields cleared and nothing else in the store changed; the request makes no other token redeemable; after a failed delivery or after the window, the mailed token fails 400 |
| `AuthProperties.LoginThenProtect` | controllers/authController.js:53-97 | credentials the user's record accepts log in, and the session issued, sent as a bearer header, is granted access to the same user unless that user's password changed after the token's `iat` |
| `AuthProperties.ProtectFailureInProduction` | controllers/authController.js:76-92 | in production every `protect` refusal reaches the client as a 401 'fail' whose message is one of the five fixed texts, never the library's |
| `AuthProperties.ProtectThenRestrict` | controllers/authController.js:99-110 | a handler behind both runs exactly for a verified, existing user, whose password did not change since the token, with a listed role; a `protect` refusal is passed on unchanged, an unlisted role gets 403 |

## Findings

| source | as written | input that shows it | evidently intended | confidence | as-written member | corrected member |
|---|---|---|---|---|---|---|
| controllers/authController.js:139 | the compensating write after a failed delivery assigns `user.passowrdResetToken`, a path the schema does not have, so the stored reset hash survives | any known email with a mail delivery that fails: the record ends with the hash set and no expiry | clear both reset fields, as lines 170-171 do, so that a hash is never stored without an expiry | not executed | `AuthProperties.AsWrittenLeavesStaleHash` (on `AuthController.ClearResetFieldsAsWritten`, which `AuthController.ForgotPassword` uses) | `Users.ClearResetFields` (used by `AuthController.Redeemed`), proved to leave a consistent record in `AuthProperties.IntendedClearsEverything` |

The stale hash cannot be redeemed, because redemption also requires an expiry after
now. The defect breaks the record invariant, not the reset protocol.

## Left out

- `signup` (controllers/authController.js:39-51) is not modelled. Its behaviour is
  `User.create` and the user model's validation.
- models/userModel.js is not part of this model. The following are opaque functions,
  or are absent:
  - `checkPassword` and bcrypt;
  - `changedPasswordAfter`;
  - the save-time validators, as an opaque list of field errors;
  - the pre-save password hashing and the setting of `passwordChangedAt`, which are not
    modelled (the step at controllers/authController.js:174 is an empty comment).
- The store keeps the password exactly as the controller assigns it.
- `createPasswordResetToken`: the random raw token is a parameter. Its effect on the
  record, the hash of that token and an expiry of now + 10 minutes, follows the mail
  subject at controllers/authController.js:130.
- utils/appError.js is not part of this model. `AppError` is taken to be operational
  and to have 'fail' as the status of a 4xx code and 'error' otherwise. `catchAsync`
  is modelled as returning `Err`.
- `AuthController.CreateAndSendToken`: `JWT_COOKIE_EXPIRES_IN` is a whole number of
  days. The source multiplies the environment string, so a fractional value would
  also work, and an unset or non-numeric value gives an invalid date on which
  `res.cookie` throws; neither is modelled.
- jsonwebtoken internals (signature, expiry checking, the messages it throws) and
  SHA-256 are modelled only as the `Services` functions.
- Mail delivery is a boolean parameter: the model covers both outcomes, not the
  transport.
- `ErrorController.GlobalErrorHandler`: `{ ...err }` is modelled as a copy of every
  field. JavaScript spread would drop the non-enumerable `message`, so production
  would send no message for an unclassified operational error. The model sends the
  message. `AuthProperties.ProtectFailureInProduction` relies on this: in the program
  the three AppError refusals of `protect` (not logged in, user gone, password
  changed) reach a production client with no message at all.
- `ErrorController.GlobalErrorHandler`: the stack trace of the development body is not
  modelled. When a handler throws, the outcome is `HandlerThrew`; what Express does
  next is not modelled.
- `AuthController.ForgotPassword`: the request email is a string. A missing
  `req.body.email` and how Mongoose would filter on it are not modelled.
- `AuthController.Protect`: a decoded `id` is taken to be a valid id. A CastError from
  a malformed id is not modelled.
- `AuthController.SaveRejected`: the ValidationError's message follows Mongoose's format,
  "User validation failed: " then `<path>: <message>` per field joined with ", ".
  Mongoose itself is not part of this model, so that format is taken as given.
- `save()` failures other than validation (database errors) are not modelled.
- `Users.UserStore.FindByEmail`, `Users.UserStore.FindByResetToken`: which record
  `findOne` returns among several matches is left unspecified (a nondeterministic
  choice).
- Concurrency between requests is not modelled. Each handler is one sequential
  operation on the store.
- Logging (`console.log`, `console.error`) is not modelled.
- app.js, server.js and dev-data/data/import-data.js are not modelled. They are
  middleware wiring, process lifecycle and bulk import I/O.
