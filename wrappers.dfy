/** Option and Result, the shapes Swift's optionals and `throws` take in this model. */
module Wrappers {

  datatype Option<+T> = None | Some(value: T) {
    /** Swift's `??`: the wrapped value, or `default` when there is none. */
    function GetOr(default: T): T {
      match this
      case Some(v) => v
      case None => default
    }
  }

  /** The outcome of a Swift function that `throws`. */
  datatype Result<+T, +E> = Ok(value: T) | Err(error: E)
}
