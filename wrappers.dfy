/** Optional values and results with an error, used where the Java code has null or throws. */
module Wrappers {

  /** A value that may be absent, standing for a Java reference that may be null. */
  datatype Option<+T> = None | Some(value: T)

  /** Either a value or the error that stopped the computation. */
  datatype Result<+T, +E> = Ok(value: T) | Err(error: E)
}
