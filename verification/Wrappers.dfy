/** The optional values and outcomes the other modules return, and the names of peers. */
module Wrappers {

  type Id = string

  datatype Option<+T> = None | Some(value: T)

  datatype Result<+T, +E> = Ok(value: T) | Err(error: E)
}
