/** How the model writes Go's error returns: a `(value, error)` pair is a
    `Result`, a bare `error` is an `Outcome`, and a nil-able value is an
    `Option`. */
module Fallible {

  datatype Option<+T> = None | Some(value: T)

  datatype Result<+R, +E> = Success(value: R) | Failure(error: E)

  datatype Outcome<+E> = Pass | Fail(error: E)
}
