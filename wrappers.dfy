/** Option and Result, the two failure-compatible wrappers used by the model. */
module Wrappers {

  datatype Option<+T> = None | Some(value: T)

  /** A value, or the error the modelled handler raises or reports instead. */
  datatype Result<+R, +E> = Ok(value: R) | Err(error: E) {

    predicate IsFailure() {
      Err?
    }

    function PropagateFailure<U>(): Result<U, E>
      requires Err?
    {
      Err(error)
    }

    function Extract(): R
      requires Ok?
    {
      value
    }
  }
}
