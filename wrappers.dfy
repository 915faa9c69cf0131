/** Option and Result values used for the lookups that may find nothing and
    for the Python operations that may raise. */
module Wrappers {

  datatype Option<+T> = None | Some(value: T) {
    function GetOr(default: T): T {
      match this
      case Some(v) => v
      case None => default
    }
  }

  /** The outcome of a Python expression that either yields a value or raises. */
  datatype Result<+T> = Ok(value: T) | Raises(error: PyError)

  /** The exception classes the modelled code raises or catches. */
  datatype PyError = ValueError | IndexError | TypeError | AttributeError
}
