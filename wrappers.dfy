/** Small option, result and outcome types shared by the other modules. */
module Wrappers {

  datatype Option<+T> = None | Some(value: T)

  /** The value of an operation that either succeeds or raises. */
  datatype Result<+T, +E> = Ok(value: T) | Err(error: E)

  /** Success or a raised error carrying its message, for the lifecycle operations. */
  datatype Outcome = Pass | Fail(message: string)
}
