/** Option and Result, the two failure-carrying shapes the model uses for nullable
    values and for operations that throw. */
module Wrappers {

  datatype Option<+T> = None | Some(value: T)

  datatype Result<+R, +E> = Success(value: R) | Failure(error: E)
}
