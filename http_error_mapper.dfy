/**
 * `mapErrorToHttpResponse`: the single place where a thrown error becomes a response. The
 * kinds are tested in order: validation error, raw zod error, `NotFoundError`, any other
 * `ApplicationError`, anything else.
 */
module HttpErrorMapper {
  import opened Wrappers
  import opened Zod
  import opened Validation
  import opened ApplicationErrors
  import opened Http
  import opened HttpResponses

  const ValidationErrorCode := "VALIDATION_ERROR"
  const InternalErrorCode := "INTERNAL_SERVER_ERROR"
  const InternalErrorMessage := "Internal server error"

  /** What a handler can throw. */
  datatype Thrown =
    | ValidationFailure(validation: ValidationError)   // instanceof ValidationError
    | SchemaFailure(issues: seq<Issue>)                // instanceof ZodError
    | ApplicationFailure(appError: AppError)           // instanceof ApplicationError (and subclasses)
    | Unclassified(description: string)                // anything else

  /** `json(statusCode, body)`: a response without headers. */
  function Json<D>(statusCode: int, body: Body<D>): (r: HttpResponse<D>)
    ensures r.headers == None
  {
    HttpResponse(statusCode, body, None)
  }

  /** The `details` the zod branch builds, with the same path rule as `fromZodError`. */
  function ZodDetails(issues: seq<Issue>): (details: seq<ValidationIssue>)
    ensures |details| == |issues|
  {
    seq(|issues|, i requires 0 <= i < |issues| => ValidationIssue(IssuePath(issues[i].path), issues[i].message))
  }

  function MapErrorToHttpResponse<D>(error: Thrown): (r: HttpResponse<D>)
    ensures r.headers == None && r.body.ErrorBody?
    ensures r.statusCode in {400, 404, 409, 500}
    ensures r.statusCode == 404 <==> error.ApplicationFailure? && error.appError.IsNotFound()
    ensures r.statusCode == 409 <==>
      error.ApplicationFailure? && !error.appError.IsNotFound() && error.appError.Code() == CustomerAlreadyExistsCode
    ensures r.statusCode == 500 <==> error.Unclassified?
    ensures error.ValidationFailure? || error.SchemaFailure? ==>
      && r.statusCode == 400
      && r.body.error.code == ValidationErrorCode
      && r.body.error.message == InvalidRequest
      && r.body.error.details.Some?
    ensures error.ValidationFailure? ==> r.body.error.details == Some(error.validation.issues)
    ensures error.ApplicationFailure? ==>
      r.body.error == ErrorPayload(error.appError.Code(), error.appError.Message(), None)
    ensures error.Unclassified? ==>
      r.body.error == ErrorPayload(InternalErrorCode, InternalErrorMessage, None)
  {
    match error
    case ValidationFailure(e) =>
      Json(400, ErrorBody(ErrorPayload(ValidationErrorCode, InvalidRequest, Some(e.issues))))
    case SchemaFailure(issues) =>
      Json(400, ErrorBody(ErrorPayload(ValidationErrorCode, InvalidRequest, Some(ZodDetails(issues)))))
    case ApplicationFailure(e) =>
      if e.IsNotFound() then
        Json(404, ErrorBody(ErrorPayload(e.Code(), e.Message(), None)))
      else
        var statusCode := if e.Code() == CustomerAlreadyExistsCode then 409 else 400;
        Json(statusCode, ErrorBody(ErrorPayload(e.Code(), e.Message(), None)))
    case Unclassified(_) =>
      Json(500, ErrorBody(ErrorPayload(InternalErrorCode, InternalErrorMessage, None)))
  }

  /** A raw zod error and the `ValidationError` built from it produce the same response. */
  lemma SchemaFailureMatchesValidation<D>(issues: seq<Issue>)
    ensures MapErrorToHttpResponse<D>(SchemaFailure(issues))
         == MapErrorToHttpResponse<D>(ValidationFailure(FromZodError(issues)))
  {
    assert ZodDetails(issues) == FromZodError(issues).issues;
  }

  /** Nothing of an unclassified error reaches the response. */
  lemma UnclassifiedDoesNotLeak<D>(a: string, b: string)
    ensures MapErrorToHttpResponse<D>(Unclassified(a)) == MapErrorToHttpResponse<D>(Unclassified(b))
  {
  }

  /**
   * The dispatch order matters: a `NotFoundError` gets 404 although it is an
   * `ApplicationError`, while a plain `ApplicationError` or a `ConflictError` carrying the code
   * `NOT_FOUND` gets 400, and only the code `CUSTOMER_ALREADY_EXISTS` gets 409.
   */
  lemma ApplicationErrorStatuses<D>(message: string, code: string)
    ensures MapErrorToHttpResponse<D>(ApplicationFailure(NewNotFoundError(Some(message)))).statusCode == 404
    ensures MapErrorToHttpResponse<D>(ApplicationFailure(NewApplicationError(NotFoundCode, message))).statusCode == 400
    ensures MapErrorToHttpResponse<D>(ApplicationFailure(NewConflictError(NotFoundCode, message))).statusCode == 400
    ensures MapErrorToHttpResponse<D>(ApplicationFailure(NewConflictError(code, message))).statusCode
         == if code == CustomerAlreadyExistsCode then 409 else 400
  {
  }

  /** No error response has a success status, and success responses carry data, never an error. */
  lemma SuccessAndErrorResponsesDiffer<D>(error: Thrown, data: D)
    ensures MapErrorToHttpResponse<D>(error).statusCode !in {HttpResponses.Ok(data).statusCode, HttpResponses.Created(data).statusCode}
    ensures HttpResponses.Ok(data).body.data == data && HttpResponses.Created(data).body.data == data
  {
  }
}
