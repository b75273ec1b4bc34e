/** What a service call gives back: a value, or the error it raises. */
module Outcomes {
  datatype Error = MoneyError | ConflictError | ValidationError | NotFoundError | ValueError

  datatype Result<+T> = Ok(value: T) | Err(error: Error)

  datatype Option<+T> = None | Some(value: T)
}
