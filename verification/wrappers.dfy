/** Option and Result values used throughout the model: Java's nullable references and
    thrown exceptions are represented by these instead of by preconditions. */
module Wrappers {

  datatype Option<+T> = None | Some(value: T)

  datatype Result<+T, +E> = Success(value: T) | Failure(error: E)
}
