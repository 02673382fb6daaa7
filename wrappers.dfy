/** Success-or-error values for the operations that throw or raise in the library. */
module Wrappers {
  datatype Option<T> = None | Some(value: T)

  datatype Result<T, E> = Ok(value: T) | Err(error: E)
  {
    predicate IsOk() { this.Ok? }
  }
}
