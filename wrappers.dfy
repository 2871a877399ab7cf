/** Option and Result values used for nullable state and for validation outcomes. */
module Wrappers {

  /** A value that may be absent; the model's rendering of a JavaScript `null`. */
  datatype Option<+T> = None | Some(value: T)

  /** Either a value or an error, for operations that can fail. */
  datatype Result<+R, +E> = Success(value: R) | Failure(error: E)
}
