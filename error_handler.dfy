/** The backend's last error handler: it fills in a missing status code and
    status, then answers with a detailed body in development and a minimal
    one otherwise, turning database constraint failures and unexpected
    errors into `AppError`s first. */
module ErrorHandler {
  import opened Strings
  import opened ApiError

  /** Whatever reaches the handler: an `AppError` or any other thrown object,
      with its properties possibly missing. A missing `isOperational` is false. */
  datatype Thrown = Thrown(
    name: Option<string>,
    message: Option<string>,
    statusCode: Option<int>,
    status: Option<string>,
    errors: Option<map<string, string>>,
    isOperational: bool,
    code: Option<string>)

  /** An `AppError` as the handler sees it. */
  function FromAppError(e: AppError): (t: Thrown)
    ensures t.message == Some(e.message) && t.statusCode == Some(e.statusCode) && t.status == Some(e.status)
    ensures t.errors == Some(e.errors) && t.isOperational == e.isOperational && t.code == None
  {
    Thrown(Some("Error"), Some(e.message), Some(e.statusCode), Some(e.status), Some(e.errors), e.isOperational, None)
  }

  /** The JSON bodies the handler sends; `success` is always false. An
      `Option` field that is `None` is left out of the body. */
  datatype Body =
    | DevBody(status: string, message: Option<string>, errors: Option<map<string, string>>, error: Thrown)
    | ProdBody(message: Option<string>, errors: Option<map<string, string>>)

  datatype Response = Response(statusCode: int, body: Body)

  /** Lines 43-44: `statusCode || 500` and `status || 'error'`. */
  function Normalize(err: Thrown): (n: Thrown)
    ensures n.statusCode.Some? && n.statusCode.value != 0 && n.status.Some? && n.status.value != ""
    ensures err.statusCode.Some? && err.statusCode.value != 0 ==> n.statusCode == err.statusCode
    ensures !(err.statusCode.Some? && err.statusCode.value != 0) ==> n.statusCode == Some(500)
    ensures err.status.Some? && err.status.value != "" ==> n.status == err.status
    ensures !(err.status.Some? && err.status.value != "") ==> n.status == Some("error")
    ensures n.(statusCode := err.statusCode, status := err.status) == err
  {
    err.(statusCode := if err.statusCode.Some? && err.statusCode.value != 0 then err.statusCode else Some(500),
         status := if err.status.Some? && err.status.value != "" then err.status else Some("error"))
  }

  /** `handleCastErrorDB`: a value that does not fit its path is a 400. */
  function HandleCastError(path: string, value: string): (e: AppError)
    ensures e.statusCode == 400 && e.status == "fail" && e.isOperational && e.errors == map[]
    ensures StartsWith(e.message, "Invalid " + path + ": ")
    ensures e.message == "Invalid " + path + ": " + value + "."
  {
    StatusOfRaisedCodes();
    var e := NewAppError("Invalid " + path + ": " + value + ".", 400, None);
    assert e.message == ("Invalid " + path + ": ") + (value + ".");
    e
  }

  /** `handleSQLiteError`: a constraint failure is the client's fault, any
      other database error the server's. */
  function HandleSQLiteError(code: Option<string>): (e: AppError)
    ensures e.isOperational && e.errors == map[]
    ensures code == Some("SQLITE_CONSTRAINT") ==> e.message == "Duplicate field value entered." && e.statusCode == 400 && e.status == "fail"
    ensures code != Some("SQLITE_CONSTRAINT") ==> e.message == "Database operation failed" && e.statusCode == 500 && e.status == "error"
  {
    StatusOfRaisedCodes();
    if code == Some("SQLITE_CONSTRAINT") then NewAppError("Duplicate field value entered.", 400, None)
    else NewAppError("Database operation failed", 500, None)
  }

  /** `sendErrorDev`: everything, with the error's own status code. */
  function SendErrorDev(err: Thrown): (r: Response)
    requires err.statusCode.Some? && err.status.Some?
    ensures r.statusCode == err.statusCode.value
    ensures r.body == DevBody(err.status.value, err.message, err.errors, err)
  {
    Response(err.statusCode.value, DevBody(err.status.value, err.message, err.errors, err))
  }

  /** `sendErrorProd`: an operational error shows its message and, when
      present, its field errors; anything else becomes a generic 500. */
  function SendErrorProd(err: Thrown): (r: Response)
    requires err.statusCode.Some?
    ensures err.isOperational ==> r == Response(err.statusCode.value, ProdBody(err.message, err.errors))
    ensures !err.isOperational ==> r == Response(500, ProdBody(Some("Something went wrong on the server"), None))
  {
    if err.isOperational then Response(err.statusCode.value, ProdBody(err.message, err.errors))
    else Response(500, ProdBody(Some("Something went wrong on the server"), None))
  }

  /** What the production branch turns the normalised error into. */
  function ProdError(err: Thrown): (e: Thrown)
    requires err.statusCode.Some?
    ensures e.isOperational && e.statusCode.Some?
  {
    var e := if err.code == Some("SQLITE_CONSTRAINT") then FromAppError(HandleSQLiteError(err.code)) else err;
    if !e.isOperational then
      var message := if err.message.Some? && err.message.value != "" then err.message.value else "Internal Server Error";
      FromAppError(NewAppError(message, if err.statusCode.value != 0 then err.statusCode.value else 500, None))
    else e
  }

  /** `globalErrorHandler(err)` with `NODE_ENV` given as `mode`. */
  function GlobalErrorHandler(err: Thrown, mode: Option<string>): Response {
    var n := Normalize(err);
    if mode == Some("development") then SendErrorDev(n) else SendErrorProd(ProdError(n))
  }

  // ---------------------------------------------------------------------
  // What the handler promises

  /** In development the response carries the normalised code, status,
      message and errors of the error itself. */
  lemma DevelopmentResponse(err: Thrown)
    ensures var r := GlobalErrorHandler(err, Some("development"));
            var n := Normalize(err);
            r.statusCode == n.statusCode.value && r.statusCode != 0
            && r.body == DevBody(n.status.value, err.message, err.errors, n)
  {
  }

  /** Outside development a constraint failure is a 400 with the duplicate
      message, whatever status code it came with. */
  lemma ConstraintFailureIs400(err: Thrown, mode: Option<string>)
    requires mode != Some("development") && err.code == Some("SQLITE_CONSTRAINT")
    ensures GlobalErrorHandler(err, mode) == Response(400, ProdBody(Some("Duplicate field value entered."), Some(map[])))
  {
  }

  /** Outside development the generic "Something went wrong" answer is never
      produced: a non-operational error is rewrapped with its own message
      (or `'Internal Server Error'`) and its normalised status code. */
  lemma UnexpectedErrorIsRewrapped(err: Thrown, mode: Option<string>)
    requires mode != Some("development") && err.code != Some("SQLITE_CONSTRAINT") && !err.isOperational
    ensures var r := GlobalErrorHandler(err, mode);
            && r.statusCode == Normalize(err).statusCode.value
            && r.body == ProdBody(Some(if err.message.Some? && err.message.value != "" then err.message.value else "Internal Server Error"), Some(map[]))
  {
  }

  /** Hence an error that does not itself carry the generic text is never
      answered with it, in either mode. */
  lemma NeverGeneric(err: Thrown, mode: Option<string>)
    requires err.message != Some("Something went wrong on the server")
    ensures GlobalErrorHandler(err, mode).body.message != Some("Something went wrong on the server")
  {
  }

  /** Outside development an operational error keeps its code, message and
      field errors; an `AppError`'s errors are always there, `{}` included. */
  lemma OperationalErrorKept(err: Thrown, mode: Option<string>)
    requires mode != Some("development") && err.code != Some("SQLITE_CONSTRAINT") && err.isOperational
    ensures GlobalErrorHandler(err, mode) == Response(Normalize(err).statusCode.value, ProdBody(err.message, err.errors))
  {
  }

  lemma AppErrorInProduction(e: AppError, mode: Option<string>)
    requires mode != Some("development") && e.isOperational && e.statusCode != 0
    ensures GlobalErrorHandler(FromAppError(e), mode) == Response(e.statusCode, ProdBody(Some(e.message), Some(e.errors)))
  {
  }

  /** A cast failure, once raised, reaches a production client as a 400
      carrying its `Invalid <path>: <value>.` message and no field errors. */
  lemma CastErrorInProduction(path: string, value: string, mode: Option<string>)
    requires mode != Some("development")
    ensures GlobalErrorHandler(FromAppError(HandleCastError(path, value)), mode) ==
              Response(400, ProdBody(Some("Invalid " + path + ": " + value + "."), Some(map[])))
  {
    AppErrorInProduction(HandleCastError(path, value), mode);
  }

  /** The status code sent is never 0: a missing or zero code becomes 500. */
  lemma StatusCodeNeverZero(err: Thrown, mode: Option<string>)
    ensures GlobalErrorHandler(err, mode).statusCode != 0
    ensures (err.statusCode == None || err.statusCode == Some(0)) && err.code != Some("SQLITE_CONSTRAINT") ==>
              GlobalErrorHandler(err, mode).statusCode == 500
  {
  }
}
