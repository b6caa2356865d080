/** Option and Result, used for a description that may be missing and for
    the run-time errors the analyzer raises. */
module Wrappers {

  datatype Option<+T> = None | Some(value: T)

  datatype Result<+R, +E> = Success(value: R) | Failure(error: E)
}
