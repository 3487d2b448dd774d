/** Absence and failure, the two outcomes the card model reports instead of Ruby's nil and exceptions. */
module Wrappers {

  /** A Ruby value that may be nil: None stands for nil. */
  datatype Option<+T> = None | Some(value: T) {

    /** The wrapped value, or `default` when absent (Ruby's `x || default`). */
    function GetOr(default: T): T
    {
      match this
      case Some(v) => v
      case None => default
    }
  }

  /** The outcome of an operation that may raise. */
  datatype Result<+R, +E> = Success(value: R) | Failure(error: E)
}
