/**
 * The authentication and authorization handlers: session issue (createAndSendToken),
 * login, the protect and restrictTo middleware, password change, and the two-phase
 * password reset. Each handler is one sequential operation on the user store; a
 * failure is the error it passes to `next` (or throws), which the global error
 * handler then normalises.
 */
module AuthController {
  import opened Wrappers
  import opened Users
  import opened ErrorController
  import Text

  /** The two failures of `jwt.verify` (RFC 7519 tokens). */
  datatype JwtFailure = JsonWebTokenError | TokenExpiredError

  /** A verified token yields its `id` and the `iat` claim (section 4.1.6 of RFC 7519). */
  datatype Verification = Decoded(id: UserId, iat: int) | Rejected(failure: JwtFailure, message: string)

  /**
   * The collaborators whose code is not part of this model, as functions:
   * signing and verifying at a given time (jsonwebtoken with the server secret),
   * the SHA-256 hex digest, and the user model's `checkPassword`,
   * `changedPasswordAfter` and the validators `save()` runs on
   * (password, passwordConfirm) — an empty list when they pass.
   */
  datatype Services = Services(
    sign: (UserId, int) -> string,
    verify: (string, int) -> Verification,
    fingerprint: string -> string,
    checkPassword: (string, string) -> bool,
    changedPasswordAfter: (User, int) -> bool,
    validateSave: (string, string) -> seq<FieldError>)

  /** The environment read at run time: NODE_ENV and JWT_COOKIE_EXPIRES_IN (days). */
  datatype Config = Config(nodeEnv: string, cookieExpiresInDays: int)

  datatype Cookie = Cookie(name: string, value: string, expires: int, httpOnly: bool, secure: bool)

  datatype Reply =
    /** `{ status: 'success', token, data: { user } }` with the `jwt` cookie. */
    | TokenReply(statusCode: int, status: string, token: string, userId: UserId, user: User, cookie: Cookie)
    | MessageReply(statusCode: int, status: string, message: string)

  datatype Result = Ok(reply: Reply) | Err(error: RaisedError)

  /** What `protect` leaves behind: `req.user` set and `next()`, or `next(err)`. */
  datatype Access = Granted(id: UserId, user: User) | Denied(error: RaisedError)

  /** The outcome of `restrictTo`: `next()` or `next(err)`. */
  datatype Gate = Continue | Stop(error: RaisedError)

  datatype Mail = Mail(email: string, subject: string, message: string)

  const DayMs := 24 * 60 * 60 * 1000
  /** The reset window of createPasswordResetToken, ten minutes as the mail subject says. */
  const ResetWindowMs := 10 * 60 * 1000

  const NotLoggedIn := "You are not logged in. Please log in to get access"
  const UserGone := "User with this token no loger exists"
  const PasswordChanged := "User recently changed password. Please login again"
  const NoPermission := "You do not have permission to perform this action"
  const MissingCredentials := "Please provide email and password"
  const InvalidCredentials := "Invalid email or password"
  const NoSuchEmail := "No user exists with the provided email"
  const MailFailed := "There was an error in sending the email. Try again after sometime"
  const EmailSent := "Email sent successfully"
  const BadResetToken := "Token is invalid or has expired!"
  const WrongPassword := "Please provide the correct passowrd"
  const ResetSubject := "Your password reset token (valid only for 10 mins)"

  /** The error jsonwebtoken throws; it is not an AppError, so it is not operational. */
  function JwtError(failure: JwtFailure, message: string): (e: RaisedError)
    // production recognises it by name; it carries no code of its own
    ensures KnownName(e.name) && !e.isOperational && e.statusCode.None? && e.code.None?
    ensures e.message == message
    ensures e.name == "TokenExpiredError" <==> failure == TokenExpiredError
  {
    RaisedError(if failure == JsonWebTokenError then "JsonWebTokenError" else "TokenExpiredError",
                message, None, None, false, None, None, None, None, None)
  }

  /** `<path>: <message>` for each failing field, in field order. */
  function PathMessages(errs: seq<FieldError>): (ms: seq<string>)
    ensures |ms| == |errs| && forall i :: 0 <= i < |errs| ==> ms[i] == errs[i].path + ": " + errs[i].message
  {
    seq(|errs|, i requires 0 <= i < |errs| => errs[i].path + ": " + errs[i].message)
  }

  /**
   * The Mongoose ValidationError `save()` rejects with; its message names the model,
   * then each failing path with its message, separated by ", ".
   */
  function SaveRejected(errs: seq<FieldError>): (e: RaisedError)
    ensures e.name == "ValidationError" && !e.isOperational && e.errors == Some(errs) && e.code.None?
    ensures Text.StartsWith(e.message, "User validation failed: ")
  {
    RaisedError("ValidationError", "User validation failed: " + Text.JoinWith(PathMessages(errs), ", "),
                None, None, false, None, None, None, None, Some(errs))
  }

  /** The TypeError of calling a method on the null a lookup returns. */
  function NullUser(): (e: RaisedError)
    // a programming error: production answers it with the generic 500
    ensures !KnownName(e.name) && !e.isOperational && e.code.None?
  {
    RaisedError("TypeError", "Cannot read properties of null (reading 'checkPassword')",
                None, None, false, None, None, None, None, None)
  }

  /** `email` or `password` in the body is a non-empty string (`!x` is false). */
  predicate Present(x: Option<string>) { x.Some? && x.value != "" }

  /** `checkPassword(candidate, user.password)` on a document read with `+password`. */
  predicate PasswordMatches(svc: Services, u: User, candidate: string) {
    u.password.Some? && svc.checkPassword(candidate, u.password.value)
  }

  // ---- Token extraction ---------------------------------------------------------

  /**
   * The bearer token of an `Authorization` header: present only when the header
   * starts with "Bearer", and then the second space-separated piece if it is not empty.
   */
  function ExtractToken(authorization: Option<string>): (token: Option<string>)
    ensures token.Some? ==>
      && authorization.Some? && Text.StartsWith(authorization.value, "Bearer")
      && token.value != "" && ' ' !in token.value
      && |Text.Split(authorization.value, ' ')| >= 2 && Text.Split(authorization.value, ' ')[1] == token.value
    ensures (authorization.None? || !Text.StartsWith(authorization.value, "Bearer")) ==> token.None?
    ensures (&& authorization.Some? && Text.StartsWith(authorization.value, "Bearer")
             && |Text.Split(authorization.value, ' ')| >= 2 && Text.Split(authorization.value, ' ')[1] != "")
            ==> token == Some(Text.Split(authorization.value, ' ')[1])
  {
    if authorization.Some? && Text.StartsWith(authorization.value, "Bearer") then
      Text.SplitPiecesAvoidSeparator(authorization.value, ' ');
      var pieces := Text.Split(authorization.value, ' ');
      if |pieces| >= 2 && pieces[1] != "" then Some(pieces[1]) else None
    else None
  }

  /** Every non-empty space-free token is recovered from the header `Bearer <token>`. */
  lemma BearerRoundTrip(token: string)
    requires token != "" && ' ' !in token
    ensures ExtractToken(Some("Bearer " + token)) == Some(token)
  {
    var h := "Bearer " + token;
    assert h == "Bearer" + [' '] + token;
    Text.SplitAtFirstSeparator("Bearer", ' ', token);
    Text.SplitWithoutSeparator(token, ' ');
    assert h[..6] == "Bearer";
  }

  /** Whatever follows the token after another space is ignored, and so is what follows "Bearer" before the first space. */
  lemma TrailingPiecesIgnored(scheme: string, token: string, rest: string)
    requires ' ' !in scheme && token != "" && ' ' !in token
    ensures ExtractToken(Some("Bearer" + scheme + " " + token + " " + rest)) == Some(token)
  {
    var h := "Bearer" + scheme + " " + token + " " + rest;
    assert h == ("Bearer" + scheme) + [' '] + (token + [' '] + rest);
    assert ' ' !in "Bearer" + scheme;
    Text.SplitAtFirstSeparator("Bearer" + scheme, ' ', token + [' '] + rest);
    Text.SplitAtFirstSeparator(token, ' ', rest);
    assert h[..6] == "Bearer";
  }

  /** The header "Bearer" alone has no second piece, so it carries no token. */
  lemma BareBearerHasNoToken()
    ensures ExtractToken(Some("Bearer")) == None
  {
    Text.SplitWithoutSeparator("Bearer", ' ');
  }

  /** A doubled space leaves an empty second piece, which is no token either. */
  lemma DoubleSpaceHasNoToken(rest: string)
    ensures ExtractToken(Some("Bearer  " + rest)) == None
  {
    var h := "Bearer  " + rest;
    assert h == "Bearer" + [' '] + (" " + rest);
    assert " " + rest == "" + [' '] + rest;
    Text.SplitAtFirstSeparator("Bearer", ' ', " " + rest);
    Text.SplitAtFirstSeparator("", ' ', rest);
    assert h[..6] == "Bearer";
  }

  // ---- Session issue ------------------------------------------------------------

  /** The reply of `createAndSendToken(user, statusCode, res)` issued at `now`. */
  predicate IsSessionReply(reply: Reply, svc: Services, cfg: Config, id: UserId, u: User, statusCode: int, now: int) {
    var token := svc.sign(id, now);
    reply == TokenReply(statusCode, "success", token, id, Public(u),
                        Cookie("jwt", token, now + cfg.cookieExpiresInDays * DayMs, true, cfg.nodeEnv == "production"))
  }

  /**
   * Signs a token for the user, removes the password from the user sent back, and
   * sets the `jwt` cookie: HTTP-only always, secure exactly in production.
   */
  method CreateAndSendToken(svc: Services, cfg: Config, id: UserId, user: User, statusCode: int, now: int)
    returns (reply: Reply)
    ensures reply.TokenReply? && reply.statusCode == statusCode && reply.status == "success"
    ensures reply.token == svc.sign(id, now) && reply.userId == id
    ensures reply.user.password == None && reply.user.(password := user.password) == user
    ensures reply.cookie.name == "jwt" && reply.cookie.value == reply.token
    ensures reply.cookie.expires == now + cfg.cookieExpiresInDays * 86_400_000
    ensures reply.cookie.httpOnly
    ensures reply.cookie.secure <==> cfg.nodeEnv == "production"
    ensures IsSessionReply(reply, svc, cfg, id, user, statusCode, now)
  {
    var token := svc.sign(id, now);
    var sent := user;
    sent := sent.(password := None);
    var options := Cookie("jwt", token, now + cfg.cookieExpiresInDays * DayMs, true, false);
    if cfg.nodeEnv == "production" {
      options := options.(secure := true);
    }
    reply := TokenReply(statusCode, "success", token, id, sent, options);
  }

  // ---- Login --------------------------------------------------------------------

  /**
   * Both credentials must be given (400); then an unknown email and a wrong password
   * give the same 401, so the reply does not tell which one it was.
   */
  method Login(db: UserStore, svc: Services, cfg: Config, email: Option<string>, password: Option<string>, now: int)
    returns (r: Result)
    ensures !Present(email) || !Present(password) ==> r == Err(AppError(MissingCredentials, 400))
    ensures (&& Present(email) && Present(password)
             && forall id :: id in db.users && db.users[id].email == email.value ==>
                  !PasswordMatches(svc, db.users[id], password.value))
            ==> r == Err(AppError(InvalidCredentials, 401))
    ensures r.Err? ==> r.error == AppError(MissingCredentials, 400) || r.error == AppError(InvalidCredentials, 401)
    // credentials that every record with that email accepts always log in
    ensures (&& Present(email) && Present(password)
             && (exists id :: id in db.users && db.users[id].email == email.value)
             && forall id :: id in db.users && db.users[id].email == email.value ==>
                  PasswordMatches(svc, db.users[id], password.value))
            ==> r.Ok?
    ensures r.Ok? ==>
      && Present(email) && Present(password) && r.reply.TokenReply?
      && r.reply.userId in db.users
      && db.users[r.reply.userId].email == email.value
      && PasswordMatches(svc, db.users[r.reply.userId], password.value)
      && IsSessionReply(r.reply, svc, cfg, r.reply.userId, db.users[r.reply.userId], 200, now)
  {
    if !Present(email) || !Present(password) {
      return Err(AppError(MissingCredentials, 400));
    }
    var found := db.FindByEmail(email.value);
    if found.None? || !PasswordMatches(svc, db.users[found.value], password.value) {
      return Err(AppError(InvalidCredentials, 401));
    }
    var reply := CreateAndSendToken(svc, cfg, found.value, db.users[found.value], 200, now);
    r := Ok(reply);
  }

  // ---- protect and restrictTo ---------------------------------------------------

  /**
   * The checks of `protect`, in order: a bearer token, a verifiable token, an existing
   * user, and no password change since the token was issued. Access is granted, with
   * the user read without its password, exactly when all of them pass.
   */
  method Protect(db: UserStore, svc: Services, authorization: Option<string>, now: int) returns (r: Access)
    ensures ExtractToken(authorization).None? ==> r == Denied(AppError(NotLoggedIn, 401))
    ensures ExtractToken(authorization).Some? ==>
      match svc.verify(ExtractToken(authorization).value, now)
      case Rejected(failure, message) => r == Denied(JwtError(failure, message))
      case Decoded(id, iat) =>
        && (id !in db.users ==> r == Denied(AppError(UserGone, 401)))
        && (id in db.users && svc.changedPasswordAfter(Public(db.users[id]), iat) ==>
              r == Denied(AppError(PasswordChanged, 401)))
    ensures r.Granted? <==>
      && ExtractToken(authorization).Some?
      && svc.verify(ExtractToken(authorization).value, now).Decoded?
      && var d := svc.verify(ExtractToken(authorization).value, now);
         d.id in db.users && !svc.changedPasswordAfter(Public(db.users[d.id]), d.iat)
    ensures r.Granted? ==>
      r.id == svc.verify(ExtractToken(authorization).value, now).id && r.id in db.users &&
      r.user == Public(db.users[r.id])
  {
    var token := ExtractToken(authorization);
    if token.None? {
      return Denied(AppError(NotLoggedIn, 401));
    }
    var decoded := svc.verify(token.value, now);
    if decoded.Rejected? {
      return Denied(JwtError(decoded.failure, decoded.message));
    }
    if decoded.id !in db.users {
      return Denied(AppError(UserGone, 401));
    }
    var user := Public(db.users[decoded.id]);
    if svc.changedPasswordAfter(user, decoded.iat) {
      return Denied(AppError(PasswordChanged, 401));
    }
    r := Granted(decoded.id, user);
  }

  /** `restrictTo(...roles)` on `req.user`: continue exactly when its role is listed, otherwise 403. */
  function RestrictTo(roles: seq<Role>, user: User): (g: Gate)
    ensures g == Continue <==> user.role in roles
    ensures g != Continue ==> g == Stop(AppError(NoPermission, 403))
  {
    if user.role !in roles then Stop(AppError(NoPermission, 403)) else Continue
  }

  /** Only the set of listed roles matters: neither their order nor repetitions change the decision. */
  lemma RestrictToReadsRolesAsSet(roles: seq<Role>, others: seq<Role>, user: User)
    requires forall role :: role in roles <==> role in others
    ensures RestrictTo(roles, user) == RestrictTo(others, user)
  {
  }

  /** Listing more roles never revokes access, and the decision depends on the user's role alone. */
  lemma RestrictToMonotone(roles: seq<Role>, more: seq<Role>, user: User, same: User)
    requires same.role == user.role
    ensures RestrictTo(roles, user) == Continue ==> RestrictTo(roles + more, user) == Continue
    ensures RestrictTo(more, user) == Continue ==> RestrictTo(roles + more, user) == Continue
    ensures RestrictTo(roles, same) == RestrictTo(roles, user)
  {
  }

  /**
   * `protect` followed by `restrictTo(...roles)` in a route's middleware chain: the
   * glue that `AuthProperties.ProtectThenRestrict` states its property over.
   */
  function Guarded(access: Access, roles: seq<Role>): (g: Gate)
    ensures g == Continue <==> access.Granted? && access.user.role in roles
    ensures access.Denied? ==> g == Stop(access.error)
  {
    match access
    case Denied(e) => Stop(e)
    case Granted(_, user) => RestrictTo(roles, user)
  }

  // ---- Password change ----------------------------------------------------------

  /**
   * `updatePassowrd`: the current password must match (401, nothing written); the
   * new one is then saved, subject to the model's validators, and a session issued.
   */
  method UpdatePassword(db: UserStore, svc: Services, cfg: Config, current: UserId,
                        oldPassword: string, newPassword: string, passwordConfirm: string, now: int)
    returns (r: Result)
    requires db.Valid()
    modifies db
    ensures db.Valid()
    ensures current !in old(db.users) ==> r == Err(NullUser()) && db.users == old(db.users)
    ensures current in old(db.users) && !PasswordMatches(svc, old(db.users)[current], oldPassword) ==>
      r == Err(AppError(WrongPassword, 401)) && db.users == old(db.users)
    ensures current in old(db.users) && PasswordMatches(svc, old(db.users)[current], oldPassword) &&
            svc.validateSave(newPassword, passwordConfirm) != [] ==>
      r == Err(SaveRejected(svc.validateSave(newPassword, passwordConfirm))) && db.users == old(db.users)
    ensures current in old(db.users) && PasswordMatches(svc, old(db.users)[current], oldPassword) &&
            svc.validateSave(newPassword, passwordConfirm) == [] ==>
      && db.users == old(db.users)[current := old(db.users)[current].(password := Some(newPassword))]
      && r.Ok? && IsSessionReply(r.reply, svc, cfg, current, db.users[current], 200, now)
  {
    if current !in db.users {
      return Err(NullUser());
    }
    var user := db.users[current];
    if !PasswordMatches(svc, user, oldPassword) {
      return Err(AppError(WrongPassword, 401));
    }
    user := user.(password := Some(newPassword));
    var invalid := svc.validateSave(newPassword, passwordConfirm);
    if invalid != [] {
      return Err(SaveRejected(invalid));
    }
    db.Save(current, user);
    var reply := CreateAndSendToken(svc, cfg, current, user, 200, now);
    r := Ok(reply);
  }

  // ---- Password reset -----------------------------------------------------------

  const ResetIntro := "Forgot your password! Don't worry. Submit a patch request with the new password and confirm password to: "
  const ResetOutro := ".\n If you didn't forget your password then just ignore this email."

  /** The reset link: the request's own origin, the reset route, and the raw token as its last segment. */
  function ResetUrl(protocol: string, host: string, rawToken: string): (url: string)
    ensures |url| >= |protocol| + |rawToken| && url[..|protocol|] == protocol
    ensures url[|url| - |rawToken|..] == rawToken
  {
    protocol + "://" + host + "/api/v1/users/resetPassword/" + rawToken
  }

  /** The reset mail goes to the user's address, with the link, and so the raw token, inside its text. */
  function ResetMail(email: string, protocol: string, host: string, rawToken: string): (m: Mail)
    ensures m.email == email && m.subject == ResetSubject
    ensures var url := ResetUrl(protocol, host, rawToken);
      |m.message| >= |ResetIntro| + |url| && m.message[|ResetIntro|..|ResetIntro| + |url|] == url
  {
    Mail(email, ResetSubject, ResetIntro + ResetUrl(protocol, host, rawToken) + ResetOutro)
  }

  /** What `createPasswordResetToken` leaves on the document: the hash of the raw token and its expiry. */
  function WithResetToken(u: User, hash: string, now: int): (v: User)
    ensures ResetMatches(v, hash, now) && ResetFieldsConsistent(v)
    ensures v.passwordResetToken == Some(hash) && v.passwordResetExpires == Some(now + ResetWindowMs)
    ensures v.(passwordResetToken := u.passwordResetToken, passwordResetExpires := u.passwordResetExpires) == u
  {
    u.(passwordResetToken := Some(hash), passwordResetExpires := Some(now + ResetWindowMs))
  }

  /**
   * The compensating write as written: it assigns `passowrdResetToken`, a path the
   * schema does not have, so only the expiry is cleared.
   */
  function ClearResetFieldsAsWritten(u: User): (v: User)
    ensures v.passwordResetToken == u.passwordResetToken && v.passwordResetExpires == None
    ensures forall hash, now :: !ResetMatches(v, hash, now)
    ensures v.(passwordResetExpires := u.passwordResetExpires) == u
  {
    u.(passwordResetExpires := None)
  }

  /**
   * `forgotPassword` with the raw token `rawToken` and a mail delivery that succeeds
   * exactly when `delivered`. `who` is the user found; `atSend` is the store at the
   * moment the mail goes out.
   */
  method ForgotPassword(db: UserStore, svc: Services, email: string, rawToken: string,
                        protocol: string, host: string, delivered: bool, now: int)
    returns (r: Result, mail: Option<Mail>, ghost who: Option<UserId>, ghost atSend: map<UserId, User>)
    requires db.Valid()
    modifies db
    ensures db.Valid()
    ensures who.None? <==> forall id :: id in old(db.users) ==> old(db.users)[id].email != email
    ensures who.None? ==> r == Err(AppError(NoSuchEmail, 404)) && mail == None && db.users == old(db.users)
    ensures who.Some? ==>
      var id := who.value;
      && id in old(db.users) && old(db.users)[id].email == email
      // the hash is saved before the mail, which carries the raw token, is sent
      && atSend == old(db.users)[id := WithResetToken(old(db.users)[id], svc.fingerprint(rawToken), now)]
      && mail == Some(ResetMail(email, protocol, host, rawToken))
      && (delivered ==> r == Ok(MessageReply(200, "success", EmailSent)) && db.users == atSend)
      && (!delivered ==>
            && r == Err(AppError(MailFailed, 500))
            && db.users == atSend[id := ClearResetFieldsAsWritten(atSend[id])])
  {
    var found := db.FindByEmail(email);
    if found.None? {
      r, mail, who, atSend := Err(AppError(NoSuchEmail, 404)), None, None, db.users;
      return;
    }
    var id := found.value;
    who := found;
    var user := db.users[id];
    user := WithResetToken(user, svc.fingerprint(rawToken), now);
    db.Save(id, user);
    atSend := db.users;
    mail := Some(ResetMail(user.email, protocol, host, rawToken));
    if delivered {
      r := Ok(MessageReply(200, "success", EmailSent));
    } else {
      // user.passowrdResetToken = undefined: not a schema path, so nothing is cleared
      user := user.(passwordResetExpires := None);
      db.Save(id, user);
      r := Err(AppError(MailFailed, 500));
    }
  }

  /** The document `resetPassword` saves: the new password, both reset fields cleared. */
  function Redeemed(u: User, password: string): (v: User)
    ensures v.password == Some(password)
    ensures forall hash, now :: !ResetMatches(v, hash, now)
    ensures ResetFieldsConsistent(v)
    ensures v.(password := u.password, passwordResetToken := u.passwordResetToken,
               passwordResetExpires := u.passwordResetExpires) == u
  {
    ClearResetFields(u).(password := Some(password))
  }

  /**
   * `resetPassword`: only a record holding the fingerprint of the raw token with an
   * expiry still in the future is redeemed; an unknown and an expired token get the
   * same 400. Redemption sets the password, clears both reset fields and issues a session.
   */
  method ResetPassword(db: UserStore, svc: Services, cfg: Config, rawToken: string,
                       password: string, passwordConfirm: string, now: int)
    returns (r: Result)
    requires db.Valid()
    modifies db
    ensures db.Valid()
    ensures (forall id :: id in old(db.users) ==> !ResetMatches(old(db.users)[id], svc.fingerprint(rawToken), now)) ==>
      r == Err(AppError(BadResetToken, 400)) && db.users == old(db.users)
    ensures (exists id :: id in old(db.users) && ResetMatches(old(db.users)[id], svc.fingerprint(rawToken), now)) ==>
      if svc.validateSave(password, passwordConfirm) == [] then r.Ok?
      else r == Err(SaveRejected(svc.validateSave(password, passwordConfirm))) && db.users == old(db.users)
    ensures r.Ok? ==> r.reply.TokenReply?
    ensures r.Ok? && r.reply.TokenReply? ==>
      var id := r.reply.userId;
      && id in old(db.users) && ResetMatches(old(db.users)[id], svc.fingerprint(rawToken), now)
      && db.users == old(db.users)[id := Redeemed(old(db.users)[id], password)]
      && IsSessionReply(r.reply, svc, cfg, id, db.users[id], 200, now)
    ensures r.Err? ==> db.users == old(db.users)
  {
    var hashed := svc.fingerprint(rawToken);
    var found := db.FindByResetToken(hashed, now);
    if found.None? {
      return Err(AppError(BadResetToken, 400));
    }
    var id := found.value;
    var user := db.users[id];
    user := user.(password := Some(password));
    user := user.(passwordResetToken := None);
    user := user.(passwordResetExpires := None);
    var invalid := svc.validateSave(password, passwordConfirm);
    if invalid != [] {
      return Err(SaveRejected(invalid));
    }
    db.Save(id, user);
    var reply := CreateAndSendToken(svc, cfg, id, user, 200, now);
    r := Ok(reply);
  }
}
