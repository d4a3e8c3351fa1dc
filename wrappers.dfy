/** Failure-compatible wrappers: an optional value and a success-or-error result. */
module Wrappers {

  /** A value that may be missing (Python's `Optional`, `None` when absent). */
  datatype Option<+T> = None | Some(value: T)

  /** The outcome of an operation that raises on some inputs. */
  datatype Result<+R, +E> = Success(value: R) | Failure(error: E)
}
