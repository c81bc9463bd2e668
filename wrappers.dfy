/** Outcomes shared by every module: optional values, and results that carry
    the kind of exception the Python or JavaScript code raises. */
module Wrappers {
  datatype Option<T> = None | Some(value: T)

  /** Exception kinds raised (explicitly or by the runtime) in the modelled code.
      `JsError` is a JavaScript `throw new Error(...)`; `Unsupported` marks a
      case outside the model (JavaScript array holes and non-index array
      properties, debugging shortcuts left out), not an exception of the
      modelled code. */
  datatype Error =
    | ValueError
    | RuntimeError
    | KeyError
    | IndexError
    | TypeError
    | AttributeError
    | NotImplementedError
    | AssertionError
    | JsError
    | Unsupported

  datatype Result<T> = Ok(value: T) | Err(error: Error)

  /** The outcome of an operation that returns nothing but may raise. */
  datatype Outcome = Pass | Fail(error: Error)
}
