/** Option and result types used by the board engine. */
module Wrappers {

  /** A value that may be absent (Ruby's `nil`). */
  datatype Option<+T> = None | Some(value: T)

  /** Either a value or an error. */
  datatype Result<+T, +E> = Success(value: T) | Failure(error: E)

  /** A state-changing call that either went through or was rejected with an error. */
  datatype Outcome<+E> = Pass | Fail(error: E)
}
