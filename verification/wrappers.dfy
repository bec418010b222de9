/** Option and Result, the two failure-carrying shapes used throughout the model. */
module Wrappers {

  datatype Option<+T> = None | Some(value: T)

  /** The outcome of an operation that either yields a value or reports an error
      (the `callback(err, value)` convention of the source). */
  datatype Result<+T, +E> = Ok(value: T) | Err(error: E)
}
