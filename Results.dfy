/** The success/failure result every handler returns, the failure constructors that
    pin an HTTP status and an error kind, and the two observers the API layer uses to
    render a result: its status code and its display message
    (src/Million.Application/Common/Extensions/ResultExtensions.cs). */
module Results {
  import opened Common

  // The error kinds (`ResultExtensions.ErrorTypes`).
  const UnauthorizedType: string := "Unauthorized"
  const NotFoundType: string := "NotFound"
  const BadRequestType: string := "BadRequest"
  const ForbiddenType: string := "Forbidden"
  const InternalServerErrorType: string := "InternalServerError"
  const ValidationErrorType: string := "ValidationError"

  /** A FluentResults error: its message and its optional "StatusCode" and "ErrorType" metadata. */
  datatype Error = Error(message: string, statusCode: Option<int>, errorType: Option<string>) {
    predicate IsValidationError() { errorType == Some(ValidationErrorType) }
  }

  /** A FluentResults `Result<T>`; the plain `Result` is `Result<()>`. As in FluentResults,
      a result is a success exactly when it holds no error. */
  datatype Result<+T> = Ok(value: T) | Fail(errors: seq<Error>) {
    function Errors(): seq<Error> {
      if Ok? then [] else errors
    }
    predicate IsSuccess() { Errors() == [] }
    predicate IsFailed() { !IsSuccess() }
  }

  /** `Result.Fail(message)`: one error without metadata. */
  function FailWith<T>(message: string): Result<T> {
    Fail([Error(message, None, None)])
  }

  /** `WithError`: one error tagged with a status code and a kind. */
  function WithError<T>(message: string, statusCode: int, errorType: string): Result<T> {
    Fail([Error(message, Some(statusCode), Some(errorType))])
  }

  function Unauthorized<T>(message: string := "Unauthorized"): Result<T> {
    WithError(message, 401, UnauthorizedType)
  }

  function NotFound<T>(message: string := "Not found"): Result<T> {
    WithError(message, 404, NotFoundType)
  }

  function BadRequest<T>(message: string := "Bad request"): Result<T> {
    WithError(message, 400, BadRequestType)
  }

  function Forbidden<T>(message: string := "Forbidden"): Result<T> {
    WithError(message, 403, ForbiddenType)
  }

  function InternalServerError<T>(message: string := "Internal server error"): Result<T> {
    WithError(message, 500, InternalServerErrorType)
  }

  /** `ValidationError(message)`: a single validation error. */
  function ValidationError<T>(message: string): Result<T> {
    WithError(message, 400, ValidationErrorType)
  }

  /** The error `ValidationError(IEnumerable<string>)` builds for one message. */
  function ValidationErrorFor(message: string): Error {
    Error(message, Some(400), Some(ValidationErrorType))
  }

  /** `ValidationError(IEnumerable<string>)`: one validation error per message, in order. */
  function ValidationErrors<T>(messages: seq<string>): Result<T> {
    Fail(seq(|messages|, i requires 0 <= i < |messages| => ValidationErrorFor(messages[i])))
  }

  /** The code a kind maps to when an error carries no status code. */
  function StatusForType(errorType: string): int {
    if errorType == UnauthorizedType then 401
    else if errorType == NotFoundType then 404
    else if errorType == BadRequestType then 400
    else if errorType == ForbiddenType then 403
    else if errorType == InternalServerErrorType then 500
    else if errorType == ValidationErrorType then 400
    else 400
  }

  /** `GetStatusCode`: 200 for a success; otherwise decided by the first error alone. */
  function GetStatusCode<T>(r: Result<T>): (code: int)
    ensures r.IsSuccess() ==> code == 200
    ensures r.IsFailed() && r.Errors()[0].statusCode.None? ==> code in {400, 401, 403, 404, 500}
    ensures r.IsFailed() && r.Errors()[0].statusCode.None? && r.Errors()[0].errorType == Some(UnauthorizedType) ==> code == 401
    ensures r.IsFailed() && r.Errors()[0].statusCode.None? && r.Errors()[0].errorType == Some(NotFoundType) ==> code == 404
    ensures r.IsFailed() && r.Errors()[0].statusCode.None? && r.Errors()[0].errorType == Some(ForbiddenType) ==> code == 403
    ensures r.IsFailed() && r.Errors()[0].statusCode.None? && r.Errors()[0].errorType == Some(InternalServerErrorType) ==> code == 500
    ensures r.IsFailed() && r.Errors()[0].statusCode.None? && r.Errors()[0].errorType.Some? ==>
      (r.Errors()[0].errorType.value !in [UnauthorizedType, NotFoundType, ForbiddenType, InternalServerErrorType] ==> code == 400)
  {
    if r.IsSuccess() then 200
    else
      var first := r.Errors()[0];
      if first.statusCode.Some? then first.statusCode.value
      else if first.errorType.Some? then StatusForType(first.errorType.value)
      else 400
  }

  /** The errors of kind ValidationError, in order (the `Where` of `GetFirstErrorMessage`). */
  function ValidationErrorsIn(errors: seq<Error>): (v: seq<Error>)
    ensures |v| <= |errors|
    ensures forall i :: 0 <= i < |v| ==> v[i].IsValidationError() && v[i] in errors
    ensures forall i :: 0 <= i < |errors| && errors[i].IsValidationError() ==> errors[i] in v
  {
    if |errors| == 0 then []
    else if errors[0].IsValidationError() then [errors[0]] + ValidationErrorsIn(errors[1..])
    else ValidationErrorsIn(errors[1..])
  }

  function MessagesOf(errors: seq<Error>): (m: seq<string>)
    ensures |m| == |errors| && forall i :: 0 <= i < |m| ==> m[i] == errors[i].message
  {
    seq(|errors|, i requires 0 <= i < |errors| => errors[i].message)
  }

  /** `GetFirstErrorMessage`: several validation errors are joined with "; ", anything else
      shows its first error only. */
  function GetFirstErrorMessage<T>(r: Result<T>): (msg: string)
    ensures r.IsSuccess() ==> msg == "An error occurred"
    ensures r.IsFailed() && (forall i :: 0 <= i < |r.Errors()| ==> !r.Errors()[i].IsValidationError()) ==>
      msg == r.Errors()[0].message
  {
    var errors := r.Errors();
    if |errors| == 0 then "An error occurred"
    else
      var validation := ValidationErrorsIn(errors);
      if |validation| > 1 then Join("; ", MessagesOf(validation))
      else errors[0].message
  }

  // ---------------------------------------------------------------------------
  // Properties of the observers

  /** Every success, whatever its value, renders as 200 with the generic message. */
  lemma SuccessRendering<T>(r: Result<T>)
    requires r.IsSuccess()
    ensures GetStatusCode(r) == 200
    ensures GetFirstErrorMessage(r) == "An error occurred"
  {
  }

  /** The status code of a failure depends only on its first error: later errors never change it. */
  lemma StatusCodeFollowsFirstError<T, U>(r: Result<T>, s: Result<U>)
    requires r.IsFailed() && s.IsFailed() && r.Errors()[0] == s.Errors()[0]
    ensures GetStatusCode(r) == GetStatusCode(s)
  {
  }

  /** The status code of a failure is its first error's explicit code if it has one, and otherwise
      the code its kind maps to: 401, 404, 403 and 500 for Unauthorized, NotFound, Forbidden and
      InternalServerError, 400 for any other kind or none. */
  lemma FailureStatusCodes<T>(r: Result<T>)
    requires r.IsFailed()
    ensures r.Errors()[0].statusCode.Some? ==> GetStatusCode(r) == r.Errors()[0].statusCode.value
    ensures r.Errors()[0].statusCode.None? ==> GetStatusCode(r) in {400, 401, 403, 404, 500}
    ensures r.Errors()[0].statusCode.None? && r.Errors()[0].errorType.None? ==> GetStatusCode(r) == 400
    ensures r.Errors()[0].statusCode.None? && r.Errors()[0].errorType.Some? ==>
      var kind := r.Errors()[0].errorType.value;
      && (kind == UnauthorizedType ==> GetStatusCode(r) == 401)
      && (kind == NotFoundType ==> GetStatusCode(r) == 404)
      && (kind == ForbiddenType ==> GetStatusCode(r) == 403)
      && (kind == InternalServerErrorType ==> GetStatusCode(r) == 500)
      && (kind in [BadRequestType, ValidationErrorType] ==> GetStatusCode(r) == 400)
      && (kind !in [UnauthorizedType, NotFoundType, ForbiddenType, InternalServerErrorType] ==> GetStatusCode(r) == 400)
  {
  }

  /** A list of validation errors keeps exactly its own errors under the validation filter. */
  lemma {:induction false} ValidationErrorsInAll(errors: seq<Error>)
    requires forall i :: 0 <= i < |errors| ==> errors[i].IsValidationError()
    ensures ValidationErrorsIn(errors) == errors
  {
    if |errors| > 0 {
      ValidationErrorsInAll(errors[1..]);
    }
  }

  /** Filtering the validation errors twice is filtering them once. */
  lemma {:induction false} ValidationErrorsInIdempotent(errors: seq<Error>)
    ensures ValidationErrorsIn(ValidationErrorsIn(errors)) == ValidationErrorsIn(errors)
  {
    ValidationErrorsInAll(ValidationErrorsIn(errors));
  }

  /** With more than one validation error, the display message is those messages joined by "; "
      in order: the other errors of the result are left out of it. */
  lemma JoinedValidationMessage<T>(r: Result<T>)
    requires |ValidationErrorsIn(r.Errors())| > 1
    ensures GetFirstErrorMessage(r) == Join("; ", MessagesOf(ValidationErrorsIn(r.Errors())))
    ensures GetFirstErrorMessage(r) == GetFirstErrorMessage(Result<T>.Fail(ValidationErrorsIn(r.Errors())))
  {
    ValidationErrorsInIdempotent(r.Errors());
  }

  /** With at most one validation error, the display message is the first error's, even when the
      single validation error comes later. */
  lemma FirstMessageOtherwise<T>(r: Result<T>)
    requires r.IsFailed() && |ValidationErrorsIn(r.Errors())| <= 1
    ensures GetFirstErrorMessage(r) == r.Errors()[0].message
  {
  }

  // ---------------------------------------------------------------------------
  // What the failure builders produce, and how they render

  /** A plain failure has one error without metadata; it renders as 400 with its message. */
  lemma FailWithRendering<T>(message: string, r: Result<T>)
    requires r == FailWith(message)
    ensures r.IsFailed() && r.Errors() == [Error(message, None, None)]
    ensures GetStatusCode(r) == 400 && GetFirstErrorMessage(r) == message
  {
    OneErrorMessage(r);
  }

  /** A tagged failure has exactly the one error with the given code and kind: its status code is
      that code and, unless the kind is ValidationError, its display message is the message. */
  lemma WithErrorRendering<T>(message: string, statusCode: int, errorType: string, r: Result<T>)
    requires r == WithError(message, statusCode, errorType)
    ensures r.IsFailed() && r.Errors() == [Error(message, Some(statusCode), Some(errorType))]
    ensures GetStatusCode(r) == statusCode
    ensures GetFirstErrorMessage(r) == message
  {
    OneErrorMessage(r);
  }

  /** The status helpers answer with their own code and kind and display their message. */
  lemma UnauthorizedRendering<T>(message: string, r: Result<T>)
    requires r == Unauthorized(message)
    ensures r.Errors() == [Error(message, Some(401), Some(UnauthorizedType))]
    ensures GetStatusCode(r) == 401 && GetFirstErrorMessage(r) == message
  {
    WithErrorRendering(message, 401, UnauthorizedType, r);
  }

  lemma NotFoundRendering<T>(message: string, r: Result<T>)
    requires r == NotFound(message)
    ensures r.Errors() == [Error(message, Some(404), Some(NotFoundType))]
    ensures GetStatusCode(r) == 404 && GetFirstErrorMessage(r) == message
  {
    WithErrorRendering(message, 404, NotFoundType, r);
  }

  lemma BadRequestRendering<T>(message: string, r: Result<T>)
    requires r == BadRequest(message)
    ensures r.Errors() == [Error(message, Some(400), Some(BadRequestType))]
    ensures GetStatusCode(r) == 400 && GetFirstErrorMessage(r) == message
  {
    WithErrorRendering(message, 400, BadRequestType, r);
  }

  lemma ForbiddenRendering<T>(message: string, r: Result<T>)
    requires r == Forbidden(message)
    ensures r.Errors() == [Error(message, Some(403), Some(ForbiddenType))]
    ensures GetStatusCode(r) == 403 && GetFirstErrorMessage(r) == message
  {
    WithErrorRendering(message, 403, ForbiddenType, r);
  }

  lemma InternalServerErrorRendering<T>(message: string, r: Result<T>)
    requires r == InternalServerError(message)
    ensures r.Errors() == [Error(message, Some(500), Some(InternalServerErrorType))]
    ensures GetStatusCode(r) == 500 && GetFirstErrorMessage(r) == message
  {
    WithErrorRendering(message, 500, InternalServerErrorType, r);
  }

  /** A single validation error answers 400 and displays its message. */
  lemma ValidationErrorRendering<T>(message: string, r: Result<T>)
    requires r == ValidationError(message)
    ensures r.Errors() == [ValidationErrorFor(message)]
    ensures GetStatusCode(r) == 400 && GetFirstErrorMessage(r) == message
  {
    WithErrorRendering(message, 400, ValidationErrorType, r);
  }

  /** A failure with exactly one error displays that error's message, whatever its kind. */
  lemma OneErrorMessage<T>(r: Result<T>)
    requires |r.Errors()| == 1
    ensures GetFirstErrorMessage(r) == r.Errors()[0].message
  {
  }

  /** The errors built from a list of messages are one validation error per message, in order,
      with code 400; the result is a failure exactly when there is a message. */
  lemma ValidationErrorsContents<T>(messages: seq<string>, r: Result<T>)
    requires r == ValidationErrors(messages)
    ensures |r.Errors()| == |messages|
    ensures forall i :: 0 <= i < |messages| ==> r.Errors()[i] == ValidationErrorFor(messages[i])
    ensures r.IsFailed() <==> messages != []
    ensures ValidationErrorsIn(r.Errors()) == r.Errors()
    ensures MessagesOf(r.Errors()) == messages
  {
    var errors := r.Errors();
    assert forall i :: 0 <= i < |errors| ==> errors[i] == ValidationErrorFor(messages[i]);
    ValidationErrorsInAll(errors);
    forall i | 0 <= i < |messages| ensures MessagesOf(errors)[i] == messages[i] {
      assert errors[i].message == messages[i];
    }
  }

  /** A failure built from a list of messages reports 400. */
  lemma ValidationErrorsStatus<T>(messages: seq<string>, r: Result<T>)
    requires messages != [] && r == ValidationErrors(messages)
    ensures GetStatusCode(r) == 400
  {
    assert r.Errors()[0] == ValidationErrorFor(messages[0]);
  }

  /** Several messages render joined by "; ". */
  lemma ValidationErrorsJoined<T>(messages: seq<string>, r: Result<T>)
    requires |messages| > 1 && r == ValidationErrors(messages)
    ensures GetFirstErrorMessage(r) == Join("; ", messages)
  {
    ValidationErrorsContents(messages, r);
  }

  /** One message renders as itself. */
  lemma ValidationErrorsSingle<T>(messages: seq<string>, r: Result<T>)
    requires |messages| == 1 && r == ValidationErrors(messages)
    ensures GetFirstErrorMessage(r) == messages[0]
  {
    ValidationErrorsContents(messages, r);
  }
}
