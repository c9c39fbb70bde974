/** Option and Result values shared by every module of the model. */
module Wrappers {
  datatype Option<T> = None | Some(value: T)

  /** The outcome of a call that may raise: `Err` carries the exception's message or kind. */
  datatype Result<T, E> = Ok(value: T) | Err(error: E)
}
