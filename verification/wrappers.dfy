/** Optional values and failure-carrying results shared by the card model. */
module Wrappers {

  /** A value that may be absent. */
  datatype Option<+T> = None | Some(value: T)

  /** Either the value an operation produced or the reason it failed. */
  datatype Result<+R, +E> = Success(value: R) | Failure(error: E)
}
