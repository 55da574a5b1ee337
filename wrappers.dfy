/** Option and Result values shared by the models of the session registry and the bundle context. */
module Wrappers {

  /** A value that may be absent (a Java `null` or a missing map entry). */
  datatype Option<+T> = None | Some(value: T)

  /** The outcome of an operation that either returns a value or raises an error. */
  datatype Result<+T, +E> = Ok(value: T) | Err(error: E)
}
