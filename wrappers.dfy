/** Option and the two-way outcome of an operation that either succeeds or
    reports a user-facing message (the source's `throw new Error(msg)` and
    its destructive toasts). */
module Wrappers {

  datatype Option<T> = None | Some(value: T) {
    function GetOr(default: T): T {
      match this
      case Some(v) => v
      case None => default
    }
  }

  datatype Outcome = Pass | Fail(message: string)
}
