/** Optional values and results with an error, used for nullable cells and
    for the operations whose pandas counterpart raises. */
module Wrappers {

  /** A value that may be absent (a pandas NaN / None). */
  datatype Option<+T> = None | Some(value: T)

  /** Either a value or the error an operation raises instead. */
  datatype Result<+R, +E> = Success(value: R) | Failure(error: E)
}
