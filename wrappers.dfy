/** Optional values and results, used for Python's None and for raised errors. */
module Wrappers {

  /** A value that may be absent (Python's None, or pandas' NaN for an empty maximum). */
  datatype Option<+T> = None | Some(value: T)

  /** The outcome of a call that may raise: a returned value or a ValueError. */
  datatype Result<+T> = Ok(value: T) | ValueError
}
