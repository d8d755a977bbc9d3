/** The outcome of an operation that either returns normally or throws. */
module Wrappers {

  /** `Ok(value)` is a normal return; `Err(error)` is the exception thrown. */
  datatype Result<+T, +E> = Ok(value: T) | Err(error: E)
}
