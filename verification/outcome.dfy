/** Failure-carrying values shared by the other modules. */
module Outcome {

  /** A value that may be absent. */
  datatype Option<T> = None | Some(value: T)

  /** Either a computed value or the error that stopped the computation. */
  datatype Result<T, E> = Ok(value: T) | Err(error: E)
}
