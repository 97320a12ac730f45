/** Failure-carrying results: `Option` for JavaScript's `undefined`/`null`
    returns and `Result` for operations that throw an `Error`. */
module Wrappers {

  datatype Option<+T> = None | Some(value: T) {
    function GetOr(default: T): T {
      match this
      case Some(v) => v
      case None => default
    }
  }

  datatype Result<+R, +E> = Success(value: R) | Failure(error: E)
}
