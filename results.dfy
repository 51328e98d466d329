/** Option and Result values, and the Python exceptions the parsers can raise
    once the text has been read. */
module Results {

  datatype Option<+T> = None | Some(value: T)

  /** The exceptions of the parsing code that depend on the text alone. */
  datatype Error =
    | ValueError(text: string)   // float() was given a run of digits and dots it cannot convert
    | ZeroDivisionError          // a fallback line reported a duration of zero seconds
    | OverflowError              // an operation count times a block size too large for a float

  /** The outcome of a parse: its value, or the exception that aborts it. */
  datatype Result<+T> = Success(value: T) | Failure(error: Error) {

    predicate IsFailure() {
      Failure?
    }

    function PropagateFailure<U>(): Result<U>
      requires Failure?
    {
      Failure(error)
    }

    function Extract(): T
      requires Success?
    {
      value
    }
  }
}
