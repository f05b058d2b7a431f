/** Option and Result, used for values the handler may or may not obtain
    (an unset environment variable, a body that is not JSON, a fetch that rejects). */
module Wrappers {

  datatype Option<+T> = None | Some(value: T)

  datatype Result<+T, +E> = Success(value: T) | Failure(error: E)
}
