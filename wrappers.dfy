/** Failure-compatible wrappers shared by every module of the model. */
module Wrappers {
  datatype Option<T> = None | Some(value: T)

  /**
   * Why an operation stopped. Every exception of the source is `Fatal`, except the
   * flattener's "circular reference in resolution stack", which is `Circular`
   * because one caller catches exactly that error and carries on.
   */
  datatype ErrorKind = Fatal | Circular

  datatype Result<T> = Ok(value: T) | Err(error: ErrorKind) {
    predicate IsFailure() { Err? }

    function PropagateFailure<U>(): Result<U>
      requires Err?
    {
      Err(error)
    }

    function Extract(): T
      requires Ok?
    {
      value
    }
  }
}
