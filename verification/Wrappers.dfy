/** The two result types the operator's functions answer with. */
module Wrappers {

  datatype Option<+T> = None | Some(value: T)

  /** A value, or the reason why there is none (the error return of the source). */
  datatype Result<+T, +E> = Ok(value: T) | Err(error: E)
}
