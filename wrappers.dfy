/** The outcome of an operation that the original reports by throwing. */
module Wrappers {

  /** `Ok` carries the value computed; `Err` carries what would have been thrown. */
  datatype Result<+T, +E> = Ok(value: T) | Err(error: E)
}
