/** Option and Result, and the Python exceptions the harness can raise. */
module Wrappers {

  datatype Option<+T> = None | Some(value: T)

  datatype Result<+T, +E> = Ok(value: T) | Err(error: E)

  /** The exceptions of the modelled Python code, by the class Python raises. */
  datatype PyError =
    | KeyError(key: string)
    | IndexError(what: string)
    | ValueError(what: string)
    | TypeError(what: string)
    | AttributeError(name: string)
    | UnboundLocalError(name: string)
    | ZeroDivisionError
    | NotImplementedError(message: string)
    | Exception(message: string)
    | SystemExit(status: int)

  function Min(a: int, b: int): (m: int)
    ensures m <= a && m <= b && (m == a || m == b)
  {
    if a <= b then a else b
  }
}
