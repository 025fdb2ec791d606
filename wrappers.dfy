/** Failure-carrying values shared by every part of the KTRLite model:
    the exceptions the Python code raises, and Option/Result/Outcome wrappers. */
module Wrappers {

  datatype Option<+T> = None | Some(value: T)

  /** The exceptions the core raises: orbit's own three, and the Python
      built-in errors that the code lets escape to its caller. */
  datatype Error =
    | IllegalArgument(message: string)
    | ModelException(message: string)
    | PredictionException(message: string)
    | TypeError
    | IndexError
    | KeyError
    | ValueError
    | ZeroDivisionError
    | AttributeError

  datatype Result<+T> = Ok(value: T) | Err(error: Error) {
    predicate IsFailure() { Err? }

    function PropagateFailure<U>(): Result<U>
      requires Err?
    {
      Err(error)
    }

    function Extract(): T
      requires Ok?
    {
      value
    }
  }

  /** The result of a step that only changes state: it passes or raises. */
  datatype Outcome = Pass | Fail(error: Error) {
    predicate IsFailure() { Fail? }

    function PropagateFailure(): Outcome
      requires Fail?
    {
      this
    }
  }
}
