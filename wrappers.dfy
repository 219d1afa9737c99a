/** Optional values and results with an error, shared by every module of the model. */
module Wrappers {

  /** A value that may be absent; stands for a Java reference that may be null. */
  datatype Option<+T> = None | Some(value: T) {
    function GetOr(default: T): T {
      match this
      case Some(v) => v
      case None => default
    }
  }

  /** The outcome of an operation that may raise an exception instead of returning. */
  datatype Result<+T, +E> = Ok(value: T) | Err(error: E)
}
