/** Small result types shared by all components. */
module Wrappers {

  /** Python's `Optional[T]`. */
  datatype Option<+T> = None | Some(value: T)

  /** A call that may raise: the value, or the fact that it raised. */
  datatype Result<+T> = Ok(value: T) | Raised
}
