/** Failure-carrying result types shared by the circuit and simulator models. */
module Wrappers {

  datatype Option<+T> = None | Some(value: T)

  /** Either a value or the error the binding would raise instead. */
  datatype Result<+T, +E> = Success(value: T) | Failure(error: E)
}
