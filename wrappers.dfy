/** Failure-carrying wrappers shared by the modules of this model. */
module Wrappers {

  /** A value that may be missing (Python's `None`, or a key absent from a dict). */
  datatype Option<+T> = None | Some(value: T) {
    function GetOr(default: T): T {
      match this
      case Some(v) => v
      case None => default
    }
  }

  /** Either a value or the error the Python code would raise instead. */
  datatype Result<+T, +E> = Success(value: T) | Failure(error: E)
}
