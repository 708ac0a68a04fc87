/** Optional values, and results of calls that may raise a value error. */
module Wrappers {
  datatype Option<+T> = None | Some(value: T)

  datatype Result<+T> = Ok(value: T) | ValueError
}
