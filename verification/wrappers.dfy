/** Failure-compatible wrappers used throughout the model: `Option` for Rust's
    `Option`, `Result` for `anyhow::Result` (the error is its message text). */
module Wrappers {

  datatype Option<+T> = None | Some(value: T) {
    predicate IsFailure() { None? }

    function PropagateFailure<U>(): Option<U>
      requires None?
    {
      None
    }

    function Extract(): T
      requires Some?
    {
      value
    }

    function GetOr(default: T): T {
      match this
      case Some(v) => v
      case None => default
    }
  }

  datatype Result<+T> = Ok(value: T) | Err(msg: string) {
    predicate IsFailure() { Err? }

    function PropagateFailure<U>(): Result<U>
      requires Err?
    {
      Err(msg)
    }

    function Extract(): T
      requires Ok?
    {
      value
    }
  }

  /** Rust's `Option::ok_or`: a missing value becomes the given error. */
  function OkOr<T>(o: Option<T>, msg: string): Result<T> {
    match o
    case Some(v) => Ok(v)
    case None => Err(msg)
  }
}
