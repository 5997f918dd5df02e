/** Optional values and results with an error channel. */
module Wrappers {

  /** A value that may be absent; `None` stands for PHP's `null`. */
  datatype Option<+T> = None | Some(value: T)

  /** Either a value or an error message (the model of a thrown exception). */
  datatype Result<+T, +E> = Ok(value: T) | Err(error: E)
}
