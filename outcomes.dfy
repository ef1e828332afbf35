/** Option and Result: Python's `None` and raised exceptions, as values. */
module Outcomes {

  datatype Option<+T> = None | Some(value: T)

  /** A computation that either returns a value or raises an error. */
  datatype Result<+T, +E> = Ok(value: T) | Err(error: E)
}
