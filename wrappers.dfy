/** Option, Result and Outcome: the error paths of the operators' constructors
    and validators are returned as values instead of raised. */
module Wrappers {

  datatype Option<+T> = None | Some(value: T)

  datatype Result<+R, +E> = Success(value: R) | Failure(error: E)

  /** The outcome of a validator: it either passes or names what is wrong. */
  datatype Outcome<+E> = Pass | Fail(error: E)
}
