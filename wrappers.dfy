/** Optional values and fallible results shared by the three modules of the model. */
module Wrappers {

  /** A value that may be absent (a JavaScript `undefined` field or argument). */
  datatype Option<+T> = None | Some(value: T)

  /** Either a value or an error message (a JavaScript `throw`). */
  datatype Result<+T, +E> = Success(value: T) | Failure(error: E)
}
