/**
 * The Some/None value the source writes as a Python value or `None`, and the
 * outcome of an operation that raises or returns an error instead of a value.
 */
module Wrappers {
  datatype Option<+T> = None | Some(value: T) {
    function GetOr(default: T): T
    {
      match this
      case Some(v) => v
      case None => default
    }
  }

  datatype Result<+T> = Success(value: T) | Failure(error: string)
}
