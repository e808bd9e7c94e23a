/** Failure-carrying values: a Python call that returns normally or raises. */
module Wrappers {

  datatype Option<+T> = None | Some(value: T)

  /** `Err` carries the text of the exception the source would raise. */
  datatype Result<+T> = Ok(value: T) | Err(error: string)
}
