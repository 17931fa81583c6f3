/** Optional values and error-carrying results, as the Go code's `(value, error)` pairs. */
module Outcomes {

  datatype Option<+T> = None | Some(value: T)

  datatype Result<+T, +E> = Ok(value: T) | Err(error: E)
}
