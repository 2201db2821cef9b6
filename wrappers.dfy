/**
 * Option and Result, and the error type shared by the whole model.
 */
module Wrappers {

  datatype Option<+T> = None | Some(value: T) {
    function GetOr(default: T): T {
      match this
      case Some(v) => v
      case None => default
    }
  }

  /** The crate's error type (src/error.rs:7-10), plus the two variants another revision
      of the crate uses for argument and data errors (rust/src/error.rs:7-10). */
  datatype Error =
    | General(msg: string)
    | NotFound(what: Option<string>)
    | ArgError(msg: string)
    | DataError(msg: string)

  datatype Result<+R> = Success(value: R) | Failure(error: Error) {
    predicate IsFailure() { Failure? }

    function PropagateFailure<U>(): Result<U>
      requires Failure?
    {
      Failure(error)
    }

    function Extract(): R
      requires Success?
    {
      value
    }
  }
}
