/** Results that may be missing or may carry an error, for the Go idioms
    `value, ok` and `value, err`. */
module Outcome {
  datatype Option<+T> = None | Some(value: T)

  datatype Result<+T, +E> = Ok(value: T) | Err(error: E)
}
