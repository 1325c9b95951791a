/** Absence and refusal, shared by every module of the project. */
module Wrappers {

  datatype Option<+T> = None | Some(value: T)

  /** A refused operation carries the reason it was refused. */
  datatype Result<+R, +E> = Success(value: R) | Failure(error: E) {
    predicate IsFailure() {
      Failure?
    }

    function PropagateFailure<U>(): Result<U, E>
      requires Failure?
    {
      Failure(error)
    }

    function Extract(): R
      requires Success?
    {
      value
    }
  }
}
