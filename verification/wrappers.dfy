/** Failure-compatible Option and Result datatypes used throughout the model. */
module Wrappers {

  /** A value that may be absent: a permissive lookup that found nothing. */
  datatype Option<+T> = None | Some(value: T)

  /** Either a computed value or the error that stopped the computation;
      usable with `:-` to propagate the first error. */
  datatype Result<+T, +E> = Ok(value: T) | Err(error: E) {

    predicate IsFailure() {
      Err?
    }

    function PropagateFailure<U>(): Result<U, E>
      requires Err?
    {
      Err(error)
    }

    function Extract(): T
      requires Ok?
    {
      value
    }
  }
}
