/** Optional values and the outcome of a call into the backend or the auth service.
    Every remote call of the view models is replaced by one of these, passed in by the caller. */
module Outcomes {

  /** Swift's optional `T?`. */
  datatype Option<+T> = None | Some(value: T)

  /** What an awaited backend call produced: its payload, or the message of the error it threw
      (`error.localizedDescription`). */
  datatype Outcome<+T> = Ok(payload: T) | Err(msg: string)
}
