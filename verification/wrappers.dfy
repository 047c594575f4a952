/** Option and Result, the shapes the model uses for nullable values and for calls that may throw. */
module Wrappers {

  /** A C# nullable value: `None` is `null`. */
  datatype Option<+T> = None | Some(value: T)

  /** The answer of a call that either returns a value or throws. */
  datatype Result<+T, +E> = Ok(value: T) | Err(error: E)
}
