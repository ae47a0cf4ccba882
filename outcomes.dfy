/** Failure-compatible wrappers shared by the whole model.
    `Option` stands for a Python value that may be `None`; `Outcome` stands for
    the result of a Python call that either returns a value or lets an
    exception escape to its caller. */
module Outcomes {

  datatype Option<+T> = None | Some(value: T) {
    /** The value, or `default` when there is none. */
    function GetOr(default: T): T {
      match this
      case Some(v) => v
      case None => default
    }
  }

  /** The exception classes that can escape from the modelled functions. */
  datatype PyError = TypeError | ValueError | AttributeError | OverflowError

  /** What a Python call does: it returns a value, or an exception escapes. */
  datatype Outcome<+T> = Returns(value: T) | Raises(error: PyError) {
    predicate IsFailure() {
      Raises?
    }

    function PropagateFailure<U>(): Outcome<U>
      requires Raises?
    {
      Raises(error)
    }

    function Extract(): T
      requires Returns?
    {
      value
    }
  }
}
