/** Option and Result values used throughout the model in place of Python's
    None and of exceptions that escape a function. */
module Wrappers {

  datatype Option<+T> = None | Some(value: T)

  datatype Result<+R, +E> = Success(value: R) | Failure(error: E)
}
