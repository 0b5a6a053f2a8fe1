/** Optional values and results with an error, used wherever the server's
    JavaScript can produce `undefined` or throw. */
module Wrappers {

  /** `None` stands for JavaScript's `undefined`. */
  datatype Option<+T> = None | Some(value: T)

  /** `Failure(error)` stands for a thrown exception carrying `error`. */
  datatype Result<+T, +E> = Success(value: T) | Failure(error: E)
}
