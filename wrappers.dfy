/** Failure-compatible result types shared by the other modules. */
module Wrappers {

  /** A value that may be absent: a line that is not of the recognised shape. */
  datatype Option<+T> = None | Some(value: T)

  /** The outcome of a check that either passes or fails with an error value
      (Go's `error` return that is `nil` on success). */
  datatype Outcome<+E> = Pass | Fail(error: E)
}
