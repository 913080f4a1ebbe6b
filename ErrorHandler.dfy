/** `middleware/errorHandler.js`: turns a thrown error into the JSON error
    reply `{ success: false, error, stack? }` and its HTTP status. */
module ErrorHandler {
  import opened Base

  /** The parts of a thrown value the handler reads. `statusCode` is an own
      enumerable property (the only way `{ ...err }` carries it over); a
      plain `new Error(message)` has none. `fieldMessages` are the
      `message`s of `Object.values(err.errors)`. */
  datatype ThrownError = ThrownError(
    name: string,
    code: Option<int>,
    number: Option<int>,
    message: string,
    fieldMessages: seq<string>,
    statusCode: Option<int>,
    stack: string)

  /** `throw new Error(message)` */
  function PlainError(message: string, stack: string): ThrownError
  {
    ThrownError("Error", None, None, message, [], None, stack)
  }

  /** The `error` field of the reply: a message, or the list of a
      validation error's field messages. */
  datatype ErrorText = Text(text: string) | Texts(texts: seq<string>)

  /** The local `error` once every `if` has run. */
  datatype Mapped = Mapped(message: ErrorText, statusCode: Option<int>)

  datatype ErrorBody = ErrorBody(success: bool, error: ErrorText, stack: Option<string>)

  datatype ErrorResponse = ErrorResponse(status: int, body: ErrorBody)

  /** `err.number` is truthy. */
  predicate HasSqlNumber(err: ThrownError)
  {
    err.number.Some? && err.number.value != 0
  }

  /** The SQL Server error numbers the handler knows. */
  function SqlMapping(number: int, message: string): Mapped
  {
    if number == 2627 then Mapped(Text("Duplicate entry"), Some(400))
    else if number == 547 then Mapped(Text("Referenced record not found"), Some(400))
    else if number == 208 then Mapped(Text("Table not found"), Some(500))
    else Mapped(Text(message), Some(500))
  }

  /** The chain of `if`s, each later match replacing the earlier one. */
  function MapError(err: ThrownError): Mapped
  {
    var start := Mapped(Text(err.message), err.statusCode);
    var afterCast := if err.name == "CastError" then Mapped(Text("Resource not found"), Some(404)) else start;
    var afterDuplicate := if err.code == Some(11000) then Mapped(Text("Duplicate field value entered"), Some(400)) else afterCast;
    var afterValidation := if err.name == "ValidationError" then Mapped(Texts(err.fieldMessages), Some(400)) else afterDuplicate;
    if HasSqlNumber(err) then SqlMapping(err.number.value, err.message) else afterValidation
  }

  /** `error.statusCode || 500` */
  function StatusOf(m: Mapped): int
  {
    if m.statusCode.Some? && m.statusCode.value != 0 then m.statusCode.value else 500
  }

  /** `error.message || 'Server Error'` (a list is always truthy). */
  function TextOf(m: Mapped): (t: ErrorText)
    ensures t != Text("")
  {
    if m.message == Text("") then Text("Server Error") else m.message
  }

  /** The stack only in development. */
  function StackFor(err: ThrownError, nodeEnv: Option<string>): (s: Option<string>)
    ensures s.Some? <==> nodeEnv == Some("development")
    ensures s.Some? ==> s.value == err.stack
  {
    if nodeEnv == Some("development") then Some(err.stack) else None
  }

  /** `errorHandler` as written: the status `res.status(...)` set before
      the throw plays no part. */
  function HandleError(err: ThrownError, nodeEnv: Option<string>): (r: ErrorResponse)
    ensures !r.body.success
    ensures r.status != 0 && r.body.error != Text("")
    ensures r.body.stack.Some? <==> nodeEnv == Some("development")
    ensures HasSqlNumber(err) ==> r.status in {400, 500}
  {
    var m := MapError(err);
    ErrorResponse(StatusOf(m), ErrorBody(false, TextOf(m), StackFor(err, nodeEnv)))
  }

  /** `CastError` is a 404 "Resource not found", unless a later rule
      applies. */
  lemma CastErrorIsNotFound(err: ThrownError, nodeEnv: Option<string>)
    requires err.name == "CastError" && err.code != Some(11000) && !HasSqlNumber(err)
    ensures HandleError(err, nodeEnv).status == 404
    ensures HandleError(err, nodeEnv).body.error == Text("Resource not found")
  {
  }

  /** A duplicate key (code 11000) is a 400, unless a later rule applies. */
  lemma DuplicateKeyIsBadRequest(err: ThrownError, nodeEnv: Option<string>)
    requires err.code == Some(11000) && err.name != "ValidationError" && !HasSqlNumber(err)
    ensures HandleError(err, nodeEnv).status == 400
    ensures HandleError(err, nodeEnv).body.error == Text("Duplicate field value entered")
  {
  }

  /** A `ValidationError` is a 400 listing every field message. */
  lemma ValidationErrorListsFields(err: ThrownError, nodeEnv: Option<string>)
    requires err.name == "ValidationError" && !HasSqlNumber(err)
    ensures HandleError(err, nodeEnv).status == 400
    ensures HandleError(err, nodeEnv).body.error == Texts(err.fieldMessages)
  {
  }

  /** A truthy SQL Server number decides alone, whatever the name, code or
      status of the error. */
  lemma SqlNumberDecides(err: ThrownError, nodeEnv: Option<string>)
    requires HasSqlNumber(err)
    ensures var r := HandleError(err, nodeEnv);
      var n := err.number.value;
      (n == 2627 ==> r.status == 400 && r.body.error == Text("Duplicate entry"))
      && (n == 547 ==> r.status == 400 && r.body.error == Text("Referenced record not found"))
      && (n == 208 ==> r.status == 500 && r.body.error == Text("Table not found"))
      && (n != 2627 && n != 547 && n != 208 ==>
            r.status == 500 && r.body.error == (if err.message == "" then Text("Server Error") else Text(err.message)))
  {
  }

  /** Any other error keeps its own `statusCode` when that is truthy, and
      is a 500 otherwise; its message is kept, or "Server Error" if empty. */
  lemma OtherErrorKeepsOwnStatus(err: ThrownError, nodeEnv: Option<string>)
    requires err.name != "CastError" && err.name != "ValidationError"
    requires err.code != Some(11000) && !HasSqlNumber(err)
    ensures var r := HandleError(err, nodeEnv);
      r.status == (if err.statusCode.Some? && err.statusCode.value != 0 then err.statusCode.value else 500)
      && r.body.error == (if err.message == "" then Text("Server Error") else Text(err.message))
  {
  }

  /** As written, an error thrown with `new Error(message)` after
      `res.status(s)` is answered with 500 for every `s` — the 400, 401,
      403 and 404 the handlers and middleware set are all lost. */
  lemma AsWrittenDiscardsResponseStatus(message: string, stack: string, nodeEnv: Option<string>)
    ensures HandleError(PlainError(message, stack), nodeEnv).status == 500
  {
  }

  /** The handler with the status already set on the response taken into
      account: a mapped or own status wins; otherwise a status other than
      Express's default 200 is kept; otherwise 500. */
  function HandleErrorKeepingStatus(err: ThrownError, responseStatus: int, nodeEnv: Option<string>): (r: ErrorResponse)
    ensures !r.body.success
    ensures r.body.stack.Some? <==> nodeEnv == Some("development")
    ensures r.body.error == HandleError(err, nodeEnv).body.error
  {
    var m := MapError(err);
    var status :=
      if m.statusCode.Some? && m.statusCode.value != 0 then m.statusCode.value
      else if responseStatus != 200 then responseStatus
      else 500;
    ErrorResponse(status, ErrorBody(false, TextOf(m), StackFor(err, nodeEnv)))
  }

  /** With the correction, `res.status(s); throw new Error(message)` is
      answered with status `s` and that message. */
  lemma PlainErrorKeepsResponseStatus(message: string, stack: string, responseStatus: int, nodeEnv: Option<string>)
    requires responseStatus != 200
    ensures var r := HandleErrorKeepingStatus(PlainError(message, stack), responseStatus, nodeEnv);
      r.status == responseStatus
      && r.body.error == (if message == "" then Text("Server Error") else Text(message))
  {
  }

  /** The correction changes nothing when the response status is still the
      default, or when a mapping or the error's own status applies. */
  lemma KeepingStatusAgreesOtherwise(err: ThrownError, responseStatus: int, nodeEnv: Option<string>)
    requires responseStatus == 200
             || (MapError(err).statusCode.Some? && MapError(err).statusCode.value != 0)
    ensures HandleErrorKeepingStatus(err, responseStatus, nodeEnv) == HandleError(err, nodeEnv)
  {
  }
}
