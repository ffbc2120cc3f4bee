/** Optional values and results with an error, for the absent keys and early returns of the script. */
module Wrappers {

  /** A value that may be absent: a missing JSON key, or a file that failed to parse. */
  datatype Option<+T> = None | Some(value: T)

  /** The outcome of a run: a value, or the error that ended it early. */
  datatype Result<+R, +E> = Success(value: R) | Failure(error: E)
}
