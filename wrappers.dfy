/** Failure-compatible wrappers shared by every module of the model: Go's
    `(value, error)` pairs become a `Result`, nil-able values an `Option`. */
module Wrappers {

  datatype Option<+T> = None | Some(value: T)

  datatype Result<+T, +E> = Success(value: T) | Failure(error: E)
}
