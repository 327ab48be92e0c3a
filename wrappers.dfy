/** Failure-carrying values: a nullable Java reference becomes an `Option`,
    a call that may throw becomes a `Result` (with a value) or an `Outcome`
    (without one). */
module Wrappers {

  datatype Option<+T> = None | Some(value: T)

  datatype Result<+R, +E> = Success(value: R) | Failure(error: E)

  datatype Outcome<+E> = Pass | Fail(error: E)
}
