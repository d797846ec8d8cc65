/** Small value types shared by every module of the model. */
module Common {

  /** Python's `None` or a present value. */
  datatype Option<+T> = None | Some(value: T)

  /** The outcome of a service call: a value, or the error the service raises. */
  datatype Result<+T, +E> = Ok(value: T) | Err(error: E)

  /** A key of a request payload: missing from the dictionary, or present with a value
      (which may itself be null). */
  datatype Key<+T> = Absent | Given(value: T)

  /** A point in time, in whole seconds (timezone-aware datetimes collapsed to one axis). */
  type Time = int

  /** An error answer: the status and the `{"error": ...}` message (None for the
      framework's own 404 and 500 pages). */
  datatype Refusal = Refusal(status: int, message: Option<string>)

  /** What a route answers: a success status with its body, or a refusal. */
  datatype Reply<+T> = Success(status: int, body: T) | Failure(refusal: Refusal)

  /** A route's `parse_dt`: no value, a time, or an exception from `fromisoformat` or from
      a value that is not a string. */
  datatype Parsed = NoValue | At(time: Time) | Raises
}
