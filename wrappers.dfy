/** Option and Result, the two failure-carrying wrappers the model uses for Go's
    `(value, error)` pairs and for nil results. */
module Wrappers {

  datatype Option<+T> = None | Some(value: T)

  datatype Result<+R, +E> = Success(value: R) | Failure(error: E)
}
