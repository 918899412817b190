/** Option and Result, the two failure-carrying wrappers the model uses. */
module Wrappers {

  /** `None` stands for an absent value (a missing key, a NaN parse, an unsettled continuation). */
  datatype Option<+T> = None | Some(value: T)

  /** `Err` stands for an exception thrown by the JavaScript code. */
  datatype Result<+T, +E> = Ok(value: T) | Err(error: E)
}
