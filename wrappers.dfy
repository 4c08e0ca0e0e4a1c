/** Option and Result, the two failure-carrying shapes used throughout the model. */
module Wrappers {

  /** A value that may be absent; `None` stands for a pandas NaN cell or a Python `None`. */
  datatype Option<+T> = None | Some(value: T)

  /** The outcome of an operation that the source can abort by raising an exception. */
  datatype Result<+T, +E> = Ok(value: T) | Err(error: E)
}
