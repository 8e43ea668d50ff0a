/** Failure-carrying values shared by every module of the model: `Option` for
    an absent value and `Result` for Go's `(value, error)` pairs. */
module Wrappers {

  datatype Option<+T> = None | Some(value: T) {
    function GetOr(default: T): T {
      match this
      case Some(v) => v
      case None => default
    }
  }

  /** A Go error return: the model keeps only a short description of the error. */
  datatype Result<+R> = Ok(value: R) | Err(msg: string) {
    predicate IsFailure() { Err? }

    function PropagateFailure<U>(): Result<U>
      requires Err?
    {
      Err(msg)
    }

    function Extract(): R
      requires Ok?
    {
      value
    }
  }
}
