/** Option and Result values for the absent values and error returns of the modelled code. */
module Wrappers {
  datatype Option<T> = None | Some(value: T)

  datatype Result<T, E> = Ok(value: T) | Err(error: E)
}
