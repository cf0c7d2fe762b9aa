/** Result and Option values that stand in for the program's exceptions and optional fields. */
module Outcomes {

  /** An optional value: an absent JSON field, an unset environment variable. */
  datatype Option<T> = None | Some(value: T) {

    /** The value when present, `fallback` otherwise (Python's `dict.get(key, default)`). */
    function GetOr(fallback: T): T {
      match this
      case Some(v) => v
      case None => fallback
    }
  }

  /** Success with a value, or failure carrying the message of the exception that was raised. */
  datatype Result<T> = Ok(value: T) | Err(msg: string)
}
