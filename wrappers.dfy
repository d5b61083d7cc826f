/** Failure-compatible wrappers shared by the view-mapping and the YAML models. */
module Wrappers {

  datatype Option<+T> = None | Some(value: T)

  /** The outcome of an operation that either yields a value or raises an error. */
  datatype Result<+T, +E> = Ok(value: T) | Fail(error: E)
}
