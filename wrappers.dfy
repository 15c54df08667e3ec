/** Option, Result and Outcome for the values and exceptions of the analysis code. */
module Wrappers {

  /** A value that may be absent: Python's `None`, or a masked entry of a masked array. */
  datatype Option<+T> = None | Some(value: T) {
    function GetOr(default: T): T {
      match this
      case Some(v) => v
      case None => default
    }
  }

  /** The Python exceptions the modelled code can raise. */
  datatype Error =
    | AssertionError
    | KeyError
    | IndexError
    | AttributeError
    | ValueError
    | NameError

  /** The value of a call that either returns or raises. */
  datatype Result<+T> = Ok(value: T) | Err(error: Error)

  /** A call that returns nothing useful, or raises. */
  datatype Outcome = Pass | Fail(error: Error)
}
