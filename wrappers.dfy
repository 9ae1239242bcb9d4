/** Failure-carrying values shared by the whole model. */
module Wrappers {

  /** A Go pointer that may be nil, or a lookup that may miss. */
  datatype Option<+T> = None | Some(value: T)

  /** The `(value, error)` pair a storage query returns: `Failure` is a non-nil error. */
  datatype Result<+T> = Success(value: T) | Failure
}
