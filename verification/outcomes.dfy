/**
  Optional values and Python's exception channel, made explicit.

  A call into a collaborator either returns a value or raises an exception;
  the model carries both outcomes as a value of `Raises<T>`.  Only the kind
  of an exception and its `str()` text are observable to the code modelled
  here, so that is all an `Exception` holds.
 */
module Outcomes {

  /** Python's `None` or a present value. */
  datatype Option<+T> = None | Some(value: T)

  /** The exception classes the modelled code raises, catches or is tested against. */
  datatype ExceptionKind =
    | ValueError
    | KeyError
    | IndexError
    | RuntimeError
    | GenericException

  /** An exception value; `message` is what `str(e)` yields. */
  datatype Exception = Exception(kind: ExceptionKind, message: string)

  /** The outcome of a call that may raise. */
  datatype Raises<+T> = Returned(value: T) | Raised(error: Exception)
}
