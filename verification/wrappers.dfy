/** Option and Result values: JavaScript's `undefined` and a rejected promise, made explicit. */
module Wrappers {

  /** A value that may be absent; `None` stands for `undefined`. */
  datatype Option<+T> = None | Some(value: T)

  /** The outcome of an operation that can fail; usable with `:-`. */
  datatype Result<+R, +E> = Ok(value: R) | Err(error: E)
  {
    predicate IsFailure() {
      Err?
    }

    function PropagateFailure<U>(): Result<U, E>
      requires Err?
    {
      Err(error)
    }

    function Extract(): R
      requires Ok?
    {
      value
    }
  }
}
