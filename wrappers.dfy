/** Failure-carrying wrappers used to model Python's None and raised exceptions. */
module Wrappers {

  /** A Python value that may be None. */
  datatype Option<+T> = None | Some(value: T)

  /** A Python call that either returns a value or raises. */
  datatype Result<+T> = Ok(value: T) | Raised(reason: string)
}
