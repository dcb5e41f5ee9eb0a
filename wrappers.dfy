/** Optional values and error results shared by every module of the model. */
module Wrappers {
  datatype Option<T> = None | Some(value: T)

  /** A value or the exception the source raises instead. */
  datatype Result<T, E> = Ok(value: T) | Err(error: E)
}
