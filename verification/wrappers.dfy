/** Option and Result values, standing in for Python's `None` and for
    exceptions that the modelled code raises instead of returning. */
module Wrappers {

  datatype Option<+T> = None | Some(value: T)

  datatype Result<+R, +E> = Success(value: R) | Failure(error: E)
}
