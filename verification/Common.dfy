/** Shared value types: an optional value, a success-or-failure result, and bytes. */
module Common {
  datatype Option<+T> = None | Some(value: T)

  datatype Result<+T> = Ok(value: T) | Err

  type byte = x: int | 0 <= x < 256
}
