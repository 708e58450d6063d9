/** The two failure-carrying datatypes the other modules share. */
module Outcomes {

  datatype Option<+T> = None | Some(value: T)

  /** A call either returns a value or raises an error. */
  datatype Result<+T, +E> = Ok(value: T) | Raised(error: E)
}
