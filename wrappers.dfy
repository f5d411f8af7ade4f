/** Option and Result wrappers shared by every module of the model. */
module Wrappers {

  /** A value that may be absent: the model's stand-in for a C# null reference. */
  datatype Option<+T> = None | Some(value: T)

  /** The outcome of a call: a value, or the error it returned or threw. */
  datatype Result<+T, +E> = Ok(value: T) | Fail(error: E)

  /** The result of a call that returns nothing (a `Task` or a `void` method). */
  datatype Unit = Unit
}

/**
 * The failures of the backend: the FluentResults errors the services return
 * (Application/Errors) and the exceptions that escape a call.
 */
module Errors {

  /** Which entity a NotFoundError reports as missing. */
  datatype Missing = UserNotFound | OperationNotFound | ReminderNotFound

  /** Exceptions thrown (not returned) by the modelled code. */
  datatype Exception =
    | ArgumentException            // malformed or unsupported cron string, unmappable TimeSpan
    | ArgumentOutOfRangeException  // unsupported TimeRange for a query window, DateTime out of range
    | NullReferenceException       // a scheduler callback dereferencing a missing entity
    | StreamWriteException         // a notification stream refusing a write

  datatype Error =
    | NotFound(missing: Missing)   // NotFoundError
    | PermissionError              // PermissionError.UserNotAllowedToOperation
    | CreateOperationError         // CreateOperationError.OperationStartDateCanNotBeInPast
    | Thrown(exception: Exception) // an exception propagating out of the call
}
