/** Result types shared by every module: an optional value, and a value or the reason it is missing. */
module Outcomes {
  datatype Option<+T> = None | Some(value: T)

  datatype Result<+T, +E> = Ok(value: T) | Err(error: E)
}
