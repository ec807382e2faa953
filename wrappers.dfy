/** Option and Result values used throughout the model in place of
    JavaScript's `undefined` and thrown errors. */
module Wrappers {

  datatype Option<+T> = None | Some(value: T)

  /** A computation that either produced a value or raised an error whose
      message is carried as a string. */
  datatype Result<+R> = Ok(value: R) | Err(message: string)
}
