/** Optional values and success/failure results shared by every module of the model. */
module Wrappers {

  /** A value that may be missing; `None` stands for JavaScript's `undefined`. */
  datatype Option<+T> = None | Some(value: T) {

    /** The carried value, or `default` when there is none (JavaScript `??`). */
    function GetOr(default: T): T {
      match this
      case Some(v) => v
      case None => default
    }
  }

  /** The outcome of a call that can throw: `Err` carries the thrown error. */
  datatype Result<+T, +E> = Ok(value: T) | Err(error: E)
}
