/** Option and Result, the two failure-carrying shapes the store uses in place of
    C#'s null returns and exceptions. */
module Wrappers {

  datatype Option<+T> = None | Some(value: T)

  datatype Result<+T, +E> = Success(value: T) | Failure(error: E)
}
