/** Option and Result: absent values and the exceptions the Java code throws. */
module Wrappers {

  datatype Option<+T> = None | Some(value: T)

  /** The outcome of a step that may throw; `:-` propagates the failure. */
  datatype Result<+R, +E> = Ok(value: R) | Err(error: E) {

    predicate IsFailure() {
      Err?
    }

    function PropagateFailure<U>(): Result<U, E>
      requires Err?
    {
      Err(error)
    }

    function Extract(): R
      requires Ok?
    {
      value
    }
  }
}
