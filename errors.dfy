/** The error kinds a record service can raise. The first three are the
    application's own exception classes (shared/errors); the last one is a
    plain `Error` thrown by the in-memory store, which no service classifies. */
module Errors {

  datatype Error =
    | InvalidInput(message: string)   // a domain rule was violated (HTTP 400)
    | NotFound(message: string)       // an existence check failed (HTTP 404)
    | AlreadyExists(message: string)  // a uniqueness rule was violated (HTTP 409)
    | Unclassified(message: string)   // any other thrown error, passed on as is

  /** The outcome of an operation that either returns a value or throws. */
  datatype Result<T> = Success(value: T) | Failure(error: Error)
}
