/** Optional values and results with an error, used for dialog answers and rejected input. */
module Wrappers {

  /** A dialog answer: `None` when the user pressed Cancel. */
  datatype Option<+T> = None | Some(value: T)

  /** The outcome of an operation that can refuse its input. */
  datatype Result<+R, +E> = Success(value: R) | Failure(error: E)
}
