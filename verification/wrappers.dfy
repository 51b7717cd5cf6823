/** Optional values and results with an error alternative, used wherever the
    driver either yields a value or stops with an error. */
module Wrappers {

  /** A value that may be missing: Python's `None` versus a present value. */
  datatype Option<+T> = None | Some(value: T)

  /** Either a value or the error that an exception would have carried. */
  datatype Result<+T, +E> = Success(value: T) | Failure(error: E)
}
