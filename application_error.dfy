/**
 * The application's error classes. `NotFoundError` and `ConflictError` extend
 * `ApplicationError`; each variant below is one class, and `Code`/`Message` are the fields every
 * `ApplicationError` has.
 */
module ApplicationErrors {
  import opened Wrappers

  const NotFoundCode := "NOT_FOUND"
  /** The code the create use case throws and the error mapper turns into 409. */
  const CustomerAlreadyExistsCode := "CUSTOMER_ALREADY_EXISTS"
  const DefaultNotFoundMessage := "Not found"

  datatype AppError =
    | ApplicationError(code: string, msg: string)   // new ApplicationError(code, message)
    | NotFoundError(msg: string)                    // new NotFoundError(message)
    | ConflictError(code: string, msg: string)      // new ConflictError(code, message)
  {
    /** `error.code`: the `NOT_FOUND` constant for a `NotFoundError`, the constructor's code otherwise. */
    function Code(): string {
      match this
      case NotFoundError(_) => NotFoundCode
      case ApplicationError(code, _) => code
      case ConflictError(code, _) => code
    }

    /** `error.message` */
    function Message(): string {
      msg
    }

    /** `error instanceof NotFoundError` */
    predicate IsNotFound() {
      NotFoundError?
    }

    /** `error instanceof ApplicationError`: every variant, the subclasses included. */
    predicate IsApplicationError() {
      ApplicationError? || NotFoundError? || ConflictError?
    }
  }

  /** `new NotFoundError(message?)`: the message defaults to `'Not found'`, the code is fixed. */
  function NewNotFoundError(message: Option<string>): (e: AppError)
    ensures e.IsNotFound() && e.IsApplicationError()
    ensures e.Code() == NotFoundCode
    ensures message.Some? ==> e.Message() == message.value
    ensures message.None? ==> e.Message() == DefaultNotFoundMessage
  {
    NotFoundError(message.GetOr(DefaultNotFoundMessage))
  }

  /** `new ConflictError(code, message)` keeps both as given and is not a `NotFoundError`. */
  function NewConflictError(code: string, message: string): (e: AppError)
    ensures !e.IsNotFound() && e.IsApplicationError()
    ensures e.Code() == code && e.Message() == message
  {
    ConflictError(code, message)
  }

  /** `new ApplicationError(code, message)` keeps both as given. */
  function NewApplicationError(code: string, message: string): (e: AppError)
    ensures !e.IsNotFound() && e.IsApplicationError()
    ensures e.Code() == code && e.Message() == message
  {
    ApplicationError(code, message)
  }

  /** Every error is an `ApplicationError`, and a `NotFoundError` always carries `NOT_FOUND`. */
  lemma ErrorHierarchy(e: AppError)
    ensures e.IsApplicationError()
    ensures e.IsNotFound() ==> e.Code() == NotFoundCode
  {
  }
}
