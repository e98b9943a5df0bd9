/** Failure-compatible wrappers shared by every module of the model. */
module Wrappers {

  /** A value that may be absent: Python's `None` or a missing cell. */
  datatype Option<T> = None | Some(value: T)
  {
    function GetOr(default: T): T
    {
      match this
      case Some(v) => v
      case None => default
    }
  }

  /** The Python exception a computation raises, reduced to its class and a detail. */
  datatype Error =
    | TypeError(detail: string)
    | ValueError(detail: string)
    | NameError(name: string)
    | KeyError(key: string)
    | IndexError(detail: string)

  /** Either the value a Python function returns or the exception it raises. */
  datatype Result<T> = Success(value: T) | Failure(error: Error)
}
