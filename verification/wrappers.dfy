/** Failure-carrying result types shared by every module of the model. */
module Wrappers {

  datatype Option<+T> = None | Some(value: T)

  /** The value of a TypeScript call that either returns or throws. */
  datatype Result<+T, +E> = Ok(value: T) | Err(error: E)
}
