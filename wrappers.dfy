/** Optional values and results shared by the modules of this model. */
module Wrappers {

  /** A value that may be missing (Swift `nil`, a failed `URL(string:)`). */
  datatype Option<+T> = None | Some(value: T)

  /** The outcome of an operation that may fail with an error value (a thrown exception). */
  datatype Result<+T, +E> = Ok(value: T) | Err(error: E)
}
