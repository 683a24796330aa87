module Wrappers {
  datatype Option<+T> = None | Some(value: T)

  datatype Fallible<+T, +E> = Ok(value: T) | Err(error: E)
}
