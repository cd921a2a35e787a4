/** Failure-carrying results shared by every module of the model.

    The sample functions signal errors in the way of their language: C++ and
    Java throw, Go returns an `error`, Python raises.  All of them become an
    `Err` (or `Fail`) carrying the kind of the exception and its message, so
    that the error path of each function is part of its contract instead of
    being excluded by a precondition.
 */
module Outcomes {

  /** The exception classes (or Go's plain `error`) that the samples raise. */
  datatype ErrorKind =
    | InvalidArgument      // C++ std::invalid_argument
    | IllegalArgument      // Java IllegalArgumentException
    | GoError              // Go errors.New(...)
    | ValueError           // Python ValueError
    | TypeError            // Python TypeError
    | ZeroDivisionError    // Python ZeroDivisionError
    | AttributeError       // Python AttributeError
    | IndexError           // Python IndexError

  /** A computed value, or the exception that replaced it. */
  datatype Result<T> = Ok(value: T) | Err(kind: ErrorKind, message: string)

  /** An optional value (Python `None`, Go `nil`, `Optional[...]`). */
  datatype Option<T> = None | Some(value: T)

  /** The outcome of an operation whose value is not modelled: only whether it raises. */
  datatype Outcome = Pass | Fail(kind: ErrorKind, message: string)
}
