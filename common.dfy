/** Failure-carrying results shared by the encoder, the decoder and the queries. */
module Common {

  datatype Option<+T> = None | Some(value: T)

  /** The single descriptive failure an operation reports; the message is the one
      the binding throws. */
  datatype Error = Error(message: string)

  /** Thrown by every failing store call that goes through LITE3_CALL. */
  const Lite3Failure := "Lite3 error"
  /** Thrown when lite3_ctx_create_from_buf refuses a buffer. */
  const FailedContext := "Failed to create Lite3 context"
  /** Thrown when a typed scalar accessor fails, by the decoder and by the value queries. */
  const FailedBoolean := "Failed to get boolean value"
  const FailedDouble := "Failed to get double value"
  const FailedInteger := "Failed to get integer value"
  const FailedString := "Failed to get string value"

  datatype Result<+T> = Ok(value: T) | Err(error: Error) {
    predicate IsFailure() { Err? }
    function PropagateFailure<U>(): Result<U>
      requires Err?
    {
      Err(error)
    }
    function Extract(): T
      requires Ok?
    {
      value
    }
  }
}
