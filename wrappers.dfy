/** Failure-carrying values used for the source's thrown errors and absent results. */
module Wrappers {

  datatype Option<+T> = None | Some(value: T) {
    /** The `??` of the source on an optional value. */
    function GetOr(default: T): T {
      if Some? then value else default
    }
  }

  datatype Result<+T, +E> = Success(value: T) | Failure(error: E)

  /** A failure-or-nothing result, for operations typed `void` in the source. */
  datatype Outcome<+E> = Pass | Fail(error: E) {
    /** Continues with `value` after a `Pass`; a `Fail` propagates unchanged. */
    function ToResult<T>(value: T): Result<T, E> {
      match this
      case Pass => Success(value)
      case Fail(e) => Failure(e)
    }
  }
}
