/** An optional value and a value-or-error. */
module Wrappers {

  /** An optional value, standing for a JavaScript result that may be `undefined`. */
  datatype Option<+T> = None | Some(value: T)

  /** A resolver's outcome: the value it returns or the error it throws. */
  datatype Result<+T, +E> = Success(value: T) | Failure(error: E)
}
