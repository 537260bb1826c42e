/** Optional values and success/failure results, used for the optional pattern
    lists and for the outcome of calls into the repository service. */
module Wrappers {

  datatype Option<+T> = None | Some(value: T)

  datatype Result<+T, +E> = Success(value: T) | Failure(error: E)
}
