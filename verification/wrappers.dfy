/** Optional values and failure-compatible results, shaped after JavaScript's
    `undefined` and thrown `TypeError`s. */
module Wrappers {

  /** A value that may be JavaScript `undefined`. */
  datatype Option<+T> = None | Some(value: T)

  /** The only failure the compiler can raise: reading a property of `undefined`. */
  datatype JsError = TypeError(message: string)

  /** Either a value or the error a JavaScript call would have thrown. */
  datatype Result<+T> = Ok(value: T) | Err(error: JsError) {

    predicate IsFailure() {
      Err?
    }

    function PropagateFailure<U>(): Result<U>
      requires Err?
    {
      Err(error)
    }

    function Extract(): T
      requires Ok?
    {
      value
    }
  }
}
