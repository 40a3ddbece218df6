/** Failure-carrying return values shared by every module of the model. */
module Wrappers {

  /** A value that may be absent: Python's None, or a query's `.first()` on no rows. */
  datatype Option<+T> = None | Some(value: T) {
    function GetOr(default: T): T {
      match this
      case Some(v) => v
      case None => default
    }
  }

  /** The outcome of an operation that can raise: `Err` carries the exception's message. */
  datatype Result<+R> = Ok(value: R) | Err(error: string) {
    predicate IsFailure() { Err? }
  }
}
