/** Optional values and success/failure outcomes, shared by the other modules. */
module Wrappers {

  /** A value that may be absent: JavaScript's `null` or `undefined`. */
  datatype Option<+T> = None | Some(value: T)

  /** The outcome of an operation that can fail: a thrown error or a rejected promise. */
  datatype Result<+R, +E> = Success(value: R) | Failure(error: E)
}
