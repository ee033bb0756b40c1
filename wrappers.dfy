/** Optional values and the exceptions the modelled code throws, as values. */
module Wrappers {

  /** A nullable reference: None stands for null. */
  datatype Option<+T> = None | Some(value: T) {
    function GetOr(default: T): T {
      match this
      case Some(v) => v
      case None => default
    }
  }

  /** The .NET exception kinds thrown by the modelled members. */
  datatype Error =
    | ArgumentNull(paramName: string)
    | Argument(message: string)
    | InvalidOperation(message: string)
    | IndexOutOfRange
    | KeyNotFound(message: string)
    | ArgumentOutOfRange(paramName: string)

  /** Either the value a member returns or the exception it throws. */
  datatype Result<+T> = Ok(value: T) | Err(error: Error)
}
