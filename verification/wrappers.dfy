/** Failure-compatible wrappers shared by the model: an optional value (a
    TypeScript property that may be left out) and a success-or-error outcome
    (a promise that resolves or rejects). */
module Wrappers {

  /** An optional value; `None` stands for a property left `undefined`. */
  datatype Option<+T> = None | Some(value: T) {

    /** The carried value, or `default` when absent (a destructuring default). */
    function GetOr(default: T): (r: T)
      ensures Some? ==> r == value
      ensures None? ==> r == default
    {
      match this
      case Some(v) => v
      case None => default
    }
  }

  /** A resolved value or the error a call rejects with. */
  datatype Result<+R, +E> = Ok(value: R) | Err(error: E)
}
