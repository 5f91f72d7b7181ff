/** Failure-compatible wrappers: the optional value that `init?(_:)` returns
    and the value-or-error outcome of a throwing decoder. */
module Wrappers {

  /** A value that may be absent (Swift's `Optional`). */
  datatype Option<+T> = None | Some(value: T)

  /** A value, or the error that was thrown instead of producing it. */
  datatype Result<+R, +E> = Success(value: R) | Failure(error: E)
}
