/**
 * The global error handler of the API: it defaults the status of a raised error,
 * then either echoes the error (development), classifies it and discloses only
 * operational errors (production), or sends nothing (any other mode).
 */
module ErrorController {
  import opened Wrappers
  import Text
  import QuotedScan

  /** One entry of a Mongoose ValidationError's `errors` object, in insertion order. */
  datatype FieldError = FieldError(path: string, message: string)

  /**
   * A value that reaches the handler: an AppError, a Mongoose or MongoDB error, a
   * jsonwebtoken error, or any other thrown error. A property the value does not
   * have is None.
   */
  datatype RaisedError = RaisedError(
    name: string,
    message: string,
    statusCode: Option<int>,
    status: Option<string>,
    isOperational: bool,
    code: Option<int>,
    path: Option<string>,
    value: Option<string>,
    msg: Option<string>,
    errors: Option<seq<FieldError>>)

  /** The two response bodies: diagnostic (development) and client-safe (production). */
  datatype Body =
    | DevBody(status: string, error: RaisedError, message: string)
    | ProdBody(status: string, message: string)

  datatype Outcome =
    | Sent(statusCode: int, body: Body)
    /** The mode is neither development nor production: the request is left unanswered. */
    | NoResponse
    /** A handler threw a TypeError; what Express then does with it is outside this model. */
    | HandlerThrew

  const DuplicateKeyCode := 11000
  const GenericMessage := "Something went wrong"
  const InvalidTokenMessage := "Invalid Token. Please login again"
  const ExpiredTokenMessage := "Login session expired. Please login again"

  /**
   * `new AppError(message, statusCode)`. utils/appError.js is not part of this model:
   * it is taken to set the code, status "fail" for a 4xx code and "error" otherwise,
   * and `isOperational`.
   */
  function AppError(message: string, statusCode: int): (e: RaisedError)
    ensures e.isOperational && e.message == message && e.statusCode == Some(statusCode)
    ensures e.status == Some("fail") <==> 400 <= statusCode < 500
    ensures e.status.Some? && e.status.value != ""
    // the production dispatcher does not classify it again, and defaulting keeps a non-zero code
    ensures !KnownName(e.name) && e.code != Some(DuplicateKeyCode)
    ensures statusCode != 0 ==> WithDefaults(e) == e
  {
    RaisedError("Error", message, Some(statusCode),
                Some(if 400 <= statusCode < 500 then "fail" else "error"),
                true, None, None, None, None, None)
  }

  /** Template-literal interpolation of a possibly missing property. */
  function Show(s: Option<string>): string {
    if s.Some? then s.value else "undefined"
  }

  /** JavaScript truthiness of the two properties the handler defaults (undefined, 0 and "" are falsy). */
  predicate CodeIsSet(c: Option<int>) { c.Some? && c.value != 0 }
  predicate TextIsSet(t: Option<string>) { t.Some? && t.value != "" }

  /** `err.statusCode || 500` and `err.status || 'error'`. */
  function WithDefaults(err: RaisedError): (d: RaisedError)
    ensures d.statusCode == (if CodeIsSet(err.statusCode) then err.statusCode else Some(500))
    ensures d.status == (if TextIsSet(err.status) then err.status else Some("error"))
    ensures d.(statusCode := err.statusCode, status := err.status) == err
  {
    err.(statusCode := if CodeIsSet(err.statusCode) then err.statusCode else Some(500),
         status := if TextIsSet(err.status) then err.status else Some("error"))
  }

  /** The production reply to `e` is `code` 'fail' with `e`'s own message. */
  predicate Disclosed(e: RaisedError, code: int) {
    e.statusCode.Some? && e.status.Some? && SendErrorProd(e) == Sent(code, ProdBody("fail", e.message))
  }

  function HandleCastErrorDB(err: RaisedError): (e: RaisedError)
    ensures Disclosed(e, 400)
    ensures e.message == "Invalid " + Show(err.path) + ": " + Show(err.value) + "."
  {
    AppError("Invalid " + Show(err.path) + ": " + Show(err.value) + ".", 400)
  }

  /** The quoted value a duplicate-key message names, or None where `.match(...)[0]` throws. */
  function DuplicateValue(msg: Option<string>): (v: Option<string>)
    ensures v.Some? <==> msg.Some? && exists i, j :: QuotedScan.IsMatch(msg.value, i, j)
  {
    if msg.None? then None else QuotedScan.FirstQuoted(msg.value)
  }

  /** None where the handler throws: `err.msg` is missing, or it holds no quoted substring. */
  function HandleDuplicateFieldsDB(err: RaisedError): (r: Option<RaisedError>)
    ensures r.Some? <==> DuplicateValue(err.msg).Some?
    ensures r.Some? ==>
      && Disclosed(r.value, 400)
      && r.value.message == "Duplicate field: " + DuplicateValue(err.msg).value + ". Please use another name"
  {
    match DuplicateValue(err.msg)
    case Some(v) => Some(AppError("Duplicate field: " + v + ". Please use another name", 400))
    case None => None
  }

  function Messages(errs: seq<FieldError>): (ms: seq<string>)
    ensures |ms| == |errs| && forall i :: 0 <= i < |errs| ==> ms[i] == errs[i].message
  {
    seq(|errs|, i requires 0 <= i < |errs| => errs[i].message)
  }

  function ValidationMessage(errs: seq<FieldError>): (m: string)
    ensures Text.StartsWith(m, "Invalid input data. ")
  {
    "Invalid input data. " + Text.JoinWith(Messages(errs), ". ")
  }

  /** None where `Object.values(err.errors)` throws because `errors` is missing. */
  function HandleValidationErrorDB(err: RaisedError): (r: Option<RaisedError>)
    ensures r.Some? <==> err.errors.Some?
    ensures r.Some? ==> Disclosed(r.value, 400) && r.value.message == ValidationMessage(err.errors.value)
  {
    if err.errors.None? then None else Some(AppError(ValidationMessage(err.errors.value), 400))
  }

  function HandleJWTError(): (e: RaisedError)
    ensures Disclosed(e, 401) && e.message == InvalidTokenMessage
  {
    AppError(InvalidTokenMessage, 401)
  }

  function HandleJWTExpiredError(): (e: RaisedError)
    ensures Disclosed(e, 401) && e.message == ExpiredTokenMessage
  {
    AppError(ExpiredTokenMessage, 401)
  }

  function SendErrorDev(err: RaisedError): (out: Outcome)
    requires err.statusCode.Some? && err.status.Some?
    ensures out.Sent? && out.statusCode == err.statusCode.value
    ensures out.body == DevBody(err.status.value, err, err.message)
  {
    Sent(err.statusCode.value, DevBody(err.status.value, err, err.message))
  }

  /** Operational errors are trusted and passed through; anything else becomes a generic 500. */
  function SendErrorProd(err: RaisedError): (out: Outcome)
    requires err.statusCode.Some? && err.status.Some?
    ensures out.Sent? && out.body.ProdBody?
    ensures err.isOperational ==> out == Sent(err.statusCode.value, ProdBody(err.status.value, err.message))
    ensures !err.isOperational ==> out == Sent(500, ProdBody("error", GenericMessage))
  {
    if err.isOperational then Sent(err.statusCode.value, ProdBody(err.status.value, err.message))
    else Sent(500, ProdBody("error", GenericMessage))
  }

  /**
   * Production discloses nothing of an error but its code, status and message, and
   * nothing at all of a non-operational one: two such errors get the same reply.
   */
  lemma ProdConceals(a: RaisedError, b: RaisedError)
    requires a.statusCode.Some? && a.status.Some? && b.statusCode.Some? && b.status.Some?
    ensures !a.isOperational && !b.isOperational ==> SendErrorProd(a) == SendErrorProd(b)
    ensures (&& a.isOperational && b.isOperational && a.statusCode == b.statusCode
             && a.status == b.status && a.message == b.message) ==> SendErrorProd(a) == SendErrorProd(b)
  {
  }

  /**
   * A programming error's own message and the error record reach the client in
   * development, and are withheld in production.
   */
  lemma DevRevealsWhatProdWithholds(err: RaisedError)
    requires err.statusCode.Some? && err.status.Some? && !err.isOperational
    ensures SendErrorDev(err).body.DevBody? && SendErrorDev(err).body.error == err
    ensures SendErrorDev(err).body.message == err.message
    ensures SendErrorProd(err).body.ProdBody? && SendErrorProd(err).statusCode == 500
    ensures err.message != GenericMessage ==> SendErrorProd(err).body.message != err.message
  {
  }

  /** The names the production branch tests for. */
  predicate KnownName(name: string) {
    name == "CastError" || name == "ValidationError" ||
    name == "JsonWebTokenError" || name == "TokenExpiredError"
  }

  /**
   * The exported error middleware. `defaulted` is `err` after the in-place defaulting
   * of `statusCode` and `status`; `out` is what is sent.
   */
  method GlobalErrorHandler(err: RaisedError, nodeEnv: string) returns (defaulted: RaisedError, out: Outcome)
    ensures defaulted == WithDefaults(err)
    // development: the error itself, unclassified
    ensures nodeEnv == "development" ==>
      out == Sent(defaulted.statusCode.value, DevBody(defaulted.status.value, defaulted, err.message))
    // any other mode but production: nothing
    ensures nodeEnv != "development" && nodeEnv != "production" ==> out == NoResponse
    // production: the classification table, test by test
    ensures nodeEnv == "production" ==> out.Sent? ==> out.body.ProdBody?
    ensures nodeEnv == "production" && !KnownName(err.name) && err.code != Some(DuplicateKeyCode) ==>
      out == if err.isOperational
             then Sent(defaulted.statusCode.value, ProdBody(defaulted.status.value, err.message))
             else Sent(500, ProdBody("error", GenericMessage))
    ensures nodeEnv == "production" && err.name == "CastError" && err.code != Some(DuplicateKeyCode) ==>
      out == Sent(400, ProdBody("fail", "Invalid " + Show(err.path) + ": " + Show(err.value) + "."))
    ensures nodeEnv == "production" && err.code == Some(DuplicateKeyCode) && !KnownName(err.name) ==>
      out == match DuplicateValue(err.msg)
             case Some(v) => Sent(400, ProdBody("fail", "Duplicate field: " + v + ". Please use another name"))
             case None => HandlerThrew
    ensures nodeEnv == "production" && err.name == "ValidationError" && err.code != Some(DuplicateKeyCode) ==>
      out == if err.errors.None? then HandlerThrew
             else Sent(400, ProdBody("fail", ValidationMessage(err.errors.value)))
    // the token handlers take no argument, so they override an earlier duplicate-key result
    ensures nodeEnv == "production" && err.name == "JsonWebTokenError" ==>
      out == if err.code == Some(DuplicateKeyCode) && DuplicateValue(err.msg).None? then HandlerThrew
             else Sent(401, ProdBody("fail", InvalidTokenMessage))
    ensures nodeEnv == "production" && err.name == "TokenExpiredError" ==>
      out == if err.code == Some(DuplicateKeyCode) && DuplicateValue(err.msg).None? then HandlerThrew
             else Sent(401, ProdBody("fail", ExpiredTokenMessage))
    // the duplicate-key handler reads `msg`, the validation handler `errors`, of the previous AppError
    ensures (&& nodeEnv == "production" && err.code == Some(DuplicateKeyCode)
             && (err.name == "CastError" || err.name == "ValidationError")) ==> out == HandlerThrew
  {
    defaulted := err;
    if !CodeIsSet(defaulted.statusCode) {
      defaulted := defaulted.(statusCode := Some(500));
    }
    if !TextIsSet(defaulted.status) {
      defaulted := defaulted.(status := Some("error"));
    }

    if nodeEnv == "development" {
      out := SendErrorDev(defaulted);
    } else if nodeEnv == "production" {
      var error := defaulted;
      if err.name == "CastError" {
        error := HandleCastErrorDB(error);
      }
      if err.code == Some(DuplicateKeyCode) {
        var handled := HandleDuplicateFieldsDB(error);
        if handled.None? {
          out := HandlerThrew;
          return;
        }
        error := handled.value;
      }
      if err.name == "ValidationError" {
        var handled := HandleValidationErrorDB(error);
        if handled.None? {
          out := HandlerThrew;
          return;
        }
        error := handled.value;
      }
      if err.name == "JsonWebTokenError" {
        error := HandleJWTError();
      }
      if err.name == "TokenExpiredError" {
        error := HandleJWTExpiredError();
      }
      out := SendErrorProd(error);
    } else {
      out := NoResponse;
    }
  }

  /** A single field's validation message is that field's message after the fixed prefix. */
  lemma ValidationMessageSingle(e: FieldError)
    ensures ValidationMessage([e]) == "Invalid input data. " + e.message
  {
  }

  /** Field messages are joined in field order: appending fields appends their messages. */
  lemma ValidationMessageAppend(a: seq<FieldError>, b: seq<FieldError>)
    requires |a| >= 1 && |b| >= 1
    ensures ValidationMessage(a + b) == ValidationMessage(a) + ". " + Text.JoinWith(Messages(b), ". ")
  {
    assert Messages(a + b) == Messages(a) + Messages(b);
    Text.JoinAppend(Messages(a), Messages(b), ". ");
  }
}
