/** Results that may be missing. */
module Wrappers {
  datatype Option<+T> = None | Some(value: T)
}

/** Results that may be an error. */
module Results {
  datatype Result<+T, +E> = Ok(value: T) | Err(error: E)
}
