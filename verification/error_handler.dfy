/** The centralised error translation of backend/dist/middleware/errorHandler.js:
    the operational errors raised by route handlers (`createError`), the
    classification of any error into an HTTP status and message, and the
    wrapper that forwards a rejected handler to that classification. */
module ErrorHandler {
  import opened Wrappers
  import Text

  /** The fields of a thrown JavaScript error that the handler inspects.
      `statusCode` and `code` may be absent; `keyValueFields` are the keys of
      a duplicate-key error's `keyValue` object in order; `fieldMessages`
      are the messages of a validation error's `errors` object in order. */
  datatype AppError = AppError(
    name: string,
    message: string,
    statusCode: Option<int>,
    isOperational: bool,
    code: Option<int>,
    keyValueFields: seq<string>,
    fieldMessages: seq<string>,
    stack: string)

  /** The database's error code for a violated unique index. */
  const DuplicateKeyCode: int := 11000

  /** `createError(message, statusCode)`: a plain `Error` carrying the status
      and marked operational. Its stack is abstracted to its first line. */
  function CreateError(message: string, statusCode: int): (e: AppError)
    ensures e.message == message && e.statusCode == Some(statusCode)
    ensures e.isOperational
    ensures !IsSpecial(e)
  {
    AppError("Error", message, Some(statusCode), true, None, [], [], "Error: " + message)
  }

  /** The four kinds of error that the handler rewrites. */
  predicate IsSpecial(e: AppError) {
    e.name == "ValidationError" || e.code == Some(DuplicateKeyCode) ||
    e.name == "JsonWebTokenError" || e.name == "TokenExpiredError"
  }

  /** `Object.keys(error.keyValue)[0]`, which is `undefined` for an empty
      object and is then rendered as the text "undefined". */
  function DuplicateField(e: AppError): string {
    if |e.keyValueFields| > 0 then e.keyValueFields[0] else "undefined"
  }

  datatype ErrorBody = ErrorBody(message: string, stack: Option<string>)

  /** The response written by the handler: `res.status(status).json({success:
      false, error: body})`. */
  datatype ErrorResponse = ErrorResponse(status: int, success: bool, error: ErrorBody)

  /** `errorHandler`: start from the error's own status (500 when it has none)
      and message, then let each matching rule override them in source order;
      the stack is echoed only when the runtime mode is development. */
  function Classify(e: AppError, development: bool): (r: ErrorResponse)
    ensures !r.success
    ensures r.error.stack == (if development then Some(e.stack) else None)
    ensures !IsSpecial(e) ==>
              r.status == e.statusCode.GetOr(500) && r.error.message == e.message
    ensures e.name == "ValidationError" && e.code != Some(DuplicateKeyCode) ==>
              r.status == 400 && r.error.message == Text.Join(e.fieldMessages, ", ")
    ensures e.code == Some(DuplicateKeyCode) &&
            e.name != "JsonWebTokenError" && e.name != "TokenExpiredError" ==>
              r.status == 400 && r.error.message == DuplicateField(e) + " already exists"
    ensures e.name == "JsonWebTokenError" ==> r.status == 401 && r.error.message == "Invalid token"
    ensures e.name == "TokenExpiredError" ==> r.status == 401 && r.error.message == "Token expired"
  {
    var status0 := e.statusCode.GetOr(500);
    var message0 := e.message;
    var (status1, message1) :=
      if e.name == "ValidationError" then (400, Text.Join(e.fieldMessages, ", "))
      else (status0, message0);
    var (status2, message2) :=
      if e.code == Some(DuplicateKeyCode) then (400, DuplicateField(e) + " already exists")
      else (status1, message1);
    var (status3, message3) :=
      if e.name == "JsonWebTokenError" then (401, "Invalid token")
      else (status2, message2);
    var (status4, message4) :=
      if e.name == "TokenExpiredError" then (401, "Token expired")
      else (status3, message3);
    ErrorResponse(status4, false, ErrorBody(message4, if development then Some(e.stack) else None))
  }

  /** An error made by `createError` keeps its status and message through the
      handler, whatever the runtime mode. */
  lemma OperationalErrorPassesThrough(message: string, status: int, development: bool)
    ensures Classify(CreateError(message, status), development).status == status
    ensures Classify(CreateError(message, status), development).error.message == message
  {
  }

  /** How the route handler's promise settled. */
  datatype Settled<T> = Resolved(value: T) | Rejected(error: AppError)

  /** `asyncHandler(fn)`: `Promise.resolve(fn(...)).catch(next)`. The result
      is the argument passed to `next`, if `next` is called at all: exactly
      the rejection reason, and nothing when the handler resolved. */
  function AsyncHandler<T>(outcome: Settled<T>): (forwarded: Option<AppError>)
    ensures forwarded.Some? <==> outcome.Rejected?
    ensures outcome.Rejected? ==> forwarded.value == outcome.error
  {
    match outcome
    case Resolved(_) => None
    case Rejected(err) => Some(err)
  }
}
