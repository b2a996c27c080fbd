/** Optional values: the model's stand-in for Python's `None`. */
module Wrappers {

  datatype Option<+T> = None | Some(value: T)

  /** Success or failure; failure carries the reason the source would raise. */
  datatype Result<+T, +E> = Ok(value: T) | Err(error: E)
}
