/** Failure-compatible wrappers and the error values the application raises. */
module Wrappers {

  /** A value that may be absent: a missing dictionary key, an omitted argument. */
  datatype Option<+T> = None | Some(value: T) {
    function GetOr(default: T): T {
      match this
      case Some(v) => v
      case None => default
    }
  }

  /** What a Python exception carries in this model. */
  datatype Error =
    | KeyError(key: string)    // a dictionary lookup of a missing key
    | TypeError                // an operation applied to a value of the wrong shape
    | IntegrityError           // a database constraint rejected the commit
    | NotFound                 // a `get_or_404` / `first_or_404` lookup found no row
    | ServiceError(detail: string)  // raised by an external service (chat, speech, JSON parsing)

  /** The outcome of a call that either returns a value or raises. */
  datatype Result<+R> = Success(value: R) | Failure(error: Error) {
    predicate IsFailure() { Failure? }

    function PropagateFailure<U>(): Result<U>
      requires Failure?
    {
      Failure(error)
    }

    function Extract(): R
      requires Success?
    {
      value
    }
  }

  /** The outcome of a call that returns nothing of interest or raises. */
  datatype Outcome = Pass | Fail(error: Error)
}
