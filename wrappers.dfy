/** Failure-compatible wrappers used for the library's optional values and for
    the exceptions it throws. */
module Wrappers {

  /** An optional value; `None` stands for JavaScript's `null` or `undefined`. */
  datatype Option<+T> = None | Some(value: T)

  /** A value, or the error that a call would have thrown instead. */
  datatype Result<+T, +E> = Success(value: T) | Failure(error: E)

  /** The outcome of a call that returns nothing: it completes or it throws. */
  datatype Outcome<+E> = Pass | Fail(error: E)
}
