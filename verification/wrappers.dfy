/** Failure-compatible wrappers shared by the model: an optional value and a
    success-or-error result. */
module Wrappers {

  /** An optional value; stands for Python's `None` or a present object. */
  datatype Option<+T> = None | Some(value: T)

  /** The outcome of a call that either returns a value or raises with a message. */
  datatype Result<+R, +E> = Success(value: R) | Failure(error: E)
}
