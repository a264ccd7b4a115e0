/** Results that may be absent or may be an error, as the operator's Go functions return them. */
module Wrappers {
  datatype Option<+T> = None | Some(value: T)

  datatype Result<+T> = Ok(value: T) | Err(error: string)
}
