/** Failure-compatible wrappers used throughout the model. `Option` also stands for a
    nullable reference of the source: `None` is `null`. */
module Wrappers {

  datatype Option<+T> = None | Some(value: T) {

    function GetOr(default: T): T {
      match this
      case Some(v) => v
      case None => default
    }
  }

  /** The outcome of an operation that throws in the source: `Failure` carries the
      kind of exception. */
  datatype Result<+R, +E> = Success(value: R) | Failure(error: E)
}
