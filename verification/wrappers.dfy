/** Optional values and success/failure results, used wherever the modelled
    code returns an `Optional` or throws. */
module Wrappers {

  datatype Option<+T> = None | Some(value: T)

  datatype Result<+R, +E> = Success(value: R) | Failure(error: E)
}
