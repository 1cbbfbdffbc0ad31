/** Optional values and results with an error, as the model's operations return them. */
module Opciones {

  /** A value that may be missing. */
  datatype Option<+T> = None | Some(value: T)

  /** Either a value or the error that aborted the operation. */
  datatype Result<+T, +E> = Ok(value: T) | Err(error: E)
}
