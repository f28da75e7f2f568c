/** Optional values and error-or-value results shared by the other modules. */
module Wrappers {

  /** Python's `None` or a present value. */
  datatype Option<+T> = None | Some(value: T)

  /** A value, or the error message an exception or argument check would carry. */
  datatype Result<+T, +E> = Success(value: T) | Failure(error: E)
}
