/** Python's exceptions and the outcome of a Python call that may raise one. */
module Basics {

  datatype Option<+T> = None | Some(value: T)

  /** The exceptions the modelled code raises or lets through. */
  datatype PyException =
    | TypeError(message: string)
    | OverflowError(message: string)
    | AttributeError(message: string)
    | AssertionError(message: string)
      /** Raised by a callee the model treats as opaque (the stdlib decoder, arrow),
          identified by its class name, and propagated unchanged. */
    | Foreign(className: string, message: string)

  /** A Python call either returns a value or raises. */
  datatype Result<+T> = Ok(value: T) | Err(error: PyException)
}
