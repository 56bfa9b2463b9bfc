/**
 * Properties that relate several handler calls: the reset protocol end to end, the
 * session a login issues being accepted by `protect`, and what the client sees of
 * an authentication failure in production.
 */
module AuthProperties {
  import opened Wrappers
  import opened Users
  import opened ErrorController
  import opened AuthController

  ghost predicate Injective(f: string -> string) {
    forall a, b :: f(a) == f(b) ==> a == b
  }

  /** No record holds an unexpired reset for this hash at this time. */
  ghost predicate NothingRedeems(users: map<UserId, User>, hash: string, now: int) {
    forall id :: id in users ==> !ResetMatches(users[id], hash, now)
  }

  /** After a failed delivery the stored hash survives, without an expiry: the record breaks the reset-field invariant. */
  lemma AsWrittenLeavesStaleHash(u: User, hash: string, now: int)
    ensures var v := ClearResetFieldsAsWritten(WithResetToken(u, hash, now));
      v.passwordResetToken == Some(hash) && !ResetFieldsConsistent(v)
  {
  }

  /** The intended compensating write keeps the invariant and leaves nothing to redeem. */
  lemma IntendedClearsEverything(u: User, hash: string, now: int)
    ensures var v := ClearResetFields(WithResetToken(u, hash, now));
      && ResetFieldsConsistent(v) && v.passwordResetToken == None
      && forall hash', now' :: !ResetMatches(v, hash', now')
  {
  }

  /** With reset hashes unique across records, a successful redemption cannot be repeated. */
  method RedeemTwice(db: UserStore, svc: Services, cfg: Config, rawToken: string,
                     password: string, passwordConfirm: string,
                     password2: string, passwordConfirm2: string, now: int, later: int)
    returns (first: Result, second: Result)
    requires db.Valid() && ResetHashesUnique(db.users)
    modifies db
    ensures first.Ok? ==> second == Err(AppError(BadResetToken, 400))
  {
    ghost var before := db.users;
    first := ResetPassword(db, svc, cfg, rawToken, password, passwordConfirm, now);
    if first.Ok? {
      var id := first.reply.userId;
      var hash := svc.fingerprint(rawToken);
      forall other | other in db.users ensures !ResetMatches(db.users[other], hash, later) {
        if other != id {
          assert db.users[other] == before[other];
          assert before[id].passwordResetToken == Some(hash);
        }
      }
    }
    second := ResetPassword(db, svc, cfg, rawToken, password2, passwordConfirm2, later);
  }

  /**
   * The reset protocol end to end, for a raw token no record held before: the mailed
   * token redeems once within the window; any other token does not; and when
   * delivery failed, or the window has passed, the mailed token does not redeem.
   */
  method RequestThenRedeem(db: UserStore, svc: Services, cfg: Config, email: string,
                           rawToken: string, otherToken: string, protocol: string, host: string,
                           delivered: bool, password: string, passwordConfirm: string,
                           now: int, later: int)
    returns (request: Result, redeem: Result, again: Result, wrong: Result)
    requires db.Valid() && Injective(svc.fingerprint) && otherToken != rawToken
    requires forall id :: id in db.users ==> db.users[id].passwordResetToken != Some(svc.fingerprint(rawToken))
    requires forall id :: id in db.users ==> !ResetMatches(db.users[id], svc.fingerprint(otherToken), later)
    requires svc.validateSave(password, passwordConfirm) == []
    requires now <= later
    modifies db
    ensures request.Ok? <==> delivered && exists id :: id in old(db.users) && old(db.users)[id].email == email
    // the account redeemed is the requester's, and it now holds the new password
    ensures redeem.Ok? ==>
      && redeem.reply.TokenReply? && redeem.reply.userId in old(db.users)
      && old(db.users)[redeem.reply.userId].email == email
      && db.users == old(db.users)[redeem.reply.userId := Redeemed(old(db.users)[redeem.reply.userId], password)]
    ensures wrong == Err(AppError(BadResetToken, 400))
    ensures request.Ok? && later < now + ResetWindowMs ==> redeem.Ok? && again == Err(AppError(BadResetToken, 400))
    ensures request.Err? || later >= now + ResetWindowMs ==> redeem == Err(AppError(BadResetToken, 400))
  {
    var mail;
    ghost var who, atSend;
    ghost var before := db.users;
    var hash := svc.fingerprint(rawToken);
    request, mail, who, atSend := ForgotPassword(db, svc, email, rawToken, protocol, host, delivered, now);
    ghost var afterRequest := db.users;

    // the other token redeems nothing: the new hash differs from its fingerprint
    assert NothingRedeems(db.users, svc.fingerprint(otherToken), later) by {
      forall id | id in db.users ensures !ResetMatches(db.users[id], svc.fingerprint(otherToken), later) {
        if who.Some? && id == who.value {
          assert svc.fingerprint(otherToken) != hash;
        } else {
          assert db.users[id] == before[id];
        }
      }
    }
    wrong := ResetPassword(db, svc, cfg, otherToken, password, passwordConfirm, later);
    assert db.users == afterRequest;

    // only the requesting record holds the new hash
    forall id | id in db.users && !(who.Some? && id == who.value)
      ensures db.users[id].passwordResetToken != Some(hash)
    {
      assert db.users[id] == before[id];
    }
    if request.Ok? && later < now + ResetWindowMs {
      assert ResetMatches(db.users[who.value], hash, later);
    }
    redeem := ResetPassword(db, svc, cfg, rawToken, password, passwordConfirm, later);
    if redeem.Ok? {
      assert redeem.reply.userId == who.value;
    }
    again := ResetPassword(db, svc, cfg, rawToken, password, passwordConfirm, later);
  }

  /** Whether a signer emits tokens a bearer header can carry and its verifier accepts them at once. */
  ghost predicate SessionTokensWork(svc: Services) {
    && (forall id, t :: svc.sign(id, t) != "" && ' ' !in svc.sign(id, t))
    && (forall id, t :: svc.verify(svc.sign(id, t), t).Decoded? && svc.verify(svc.sign(id, t), t).id == id)
  }

  /**
   * The session a login issues opens protected routes immediately, carried as
   * `Authorization: Bearer <token>`, unless the password changed since it was issued.
   */
  method LoginThenProtect(db: UserStore, svc: Services, cfg: Config, email: string, password: string, now: int)
    returns (login: Result, access: Access)
    requires SessionTokensWork(svc)
    // no stored user's password changed since a token issued now
    requires forall id :: id in db.users ==> !svc.changedPasswordAfter(Public(db.users[id]), svc.verify(svc.sign(id, now), now).iat)
    ensures login.Ok? ==> login.reply.TokenReply? && access.Granted? && access.id == login.reply.userId
    ensures (&& email != "" && password != ""
             && (exists id :: id in db.users && db.users[id].email == email)
             && forall id :: id in db.users && db.users[id].email == email ==> PasswordMatches(svc, db.users[id], password))
            ==> login.Ok? && access.Granted?
    ensures login.Err? ==> login.error == AppError(MissingCredentials, 400) || login.error == AppError(InvalidCredentials, 401)
  {
    login := Login(db, svc, cfg, Some(email), Some(password), now);
    if login.Ok? {
      BearerRoundTrip(login.reply.token);
      access := Protect(db, svc, Some("Bearer " + login.reply.token), now);
    } else {
      access := Protect(db, svc, None, now);
    }
  }

  /** In production, every way `protect` refuses a request reaches the client as a 401 with a client-safe body. */
  method ProtectFailureInProduction(db: UserStore, svc: Services, authorization: Option<string>, now: int)
    returns (access: Access, out: Outcome)
    ensures access.Denied? ==> out.Sent? && out.statusCode == 401 && out.body.ProdBody? && out.body.status == "fail"
    ensures access.Denied? && access.error.name == "TokenExpiredError" ==>
      out == Sent(401, ProdBody("fail", ExpiredTokenMessage))
    ensures access.Denied? ==>
      out.body.message in {NotLoggedIn, UserGone, PasswordChanged, InvalidTokenMessage, ExpiredTokenMessage}
    ensures access.Granted? ==> out == NoResponse
  {
    access := Protect(db, svc, authorization, now);
    if access.Denied? {
      var defaulted;
      defaulted, out := GlobalErrorHandler(access.error, "production");
    } else {
      out := NoResponse;
    }
  }

  /** Behind `protect` and `restrictTo`, a handler runs only for a listed role of an authenticated user. */
  method ProtectThenRestrict(db: UserStore, svc: Services, authorization: Option<string>, roles: seq<Role>, now: int)
    returns (access: Access, gate: Gate)
    ensures gate == Continue <==>
      && ExtractToken(authorization).Some?
      && var d := svc.verify(ExtractToken(authorization).value, now);
         && d.Decoded? && d.id in db.users
         && !svc.changedPasswordAfter(Public(db.users[d.id]), d.iat) && db.users[d.id].role in roles
    // a refusal by `protect` is passed on unchanged; a granted user with an unlisted role gets 403
    ensures access.Denied? ==> gate == Stop(access.error)
    ensures access.Granted? && access.user.role !in roles ==> gate == Stop(AppError(NoPermission, 403))
  {
    access := Protect(db, svc, authorization, now);
    gate := Guarded(access, roles);
  }
}
