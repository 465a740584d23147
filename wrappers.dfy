/** The Option and Result datatypes shared by the other modules. */
module Wrappers {

  datatype Option<+T> = None | Some(value: T)

  /** The outcome of a validation step: a value, or the error the schema raises. */
  datatype Result<+T, +E> = Ok(value: T) | Err(error: E)
}
