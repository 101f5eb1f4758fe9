/** The framework-neutral request and response records the controller and the presenters use. */
module Http {
  import opened Wrappers
  import opened Json
  import opened Validation

  /** The parts of a normalised request the customer endpoints read: the body and the route parameters. */
  datatype HttpRequest = HttpRequest(body: Option<Value>, params: Option<Value>)

  /** `{code, message, details?}` under the `error` key of an error body. */
  datatype ErrorPayload = ErrorPayload(code: string, message: string, details: Option<seq<ValidationIssue>>)

  /** A response body: `{data}` on success, `{error}` on failure. */
  datatype Body<D> = DataBody(data: D) | ErrorBody(error: ErrorPayload)

  /** `{statusCode, body, headers?}`; `None` headers is an absent `headers` property. */
  datatype HttpResponse<D> = HttpResponse(statusCode: int, body: Body<D>, headers: Option<map<string, string>>)
}
