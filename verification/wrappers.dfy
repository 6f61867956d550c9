/** Result values for the Python exceptions the modelled code can raise. */
module Wrappers {

  /** The exceptions reachable in the modelled code. */
  datatype Fault = ValueError | ZeroDivisionError | KeyError

  /** A value, or the exception raised instead of producing it. */
  datatype Result<+T> = Ok(value: T) | Err(fault: Fault)

  datatype Option<+T> = None | Some(value: T)
}
