/** Option and Result, the two failure-carrying datatypes the model uses in place
    of Python's None and raised exceptions. */
module Wrappers {

  datatype Option<+T> = None | Some(value: T)

  /** A Python call that either returns a value or raises an exception whose
      message is `error`. */
  datatype Result<+R, +E> = Ok(value: R) | Err(error: E)
}
