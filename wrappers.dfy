/** Optional values and results with an error message, shared by the modules of this model. */
module Wrappers {

  /** A value that may be absent (JavaScript `undefined`, a failed `find`). */
  datatype Option<+T> = None | Some(value: T)

  /** The outcome of an operation that can be refused with a reason. */
  datatype Result<+T, +E> = Success(value: T) | Failure(error: E)
}
