/** Failure-carrying values shared by the modules of this model. */
module Wrappers {

  /** A value that may be absent: Python's `None` or a missing optional key. */
  datatype Option<+T> = None | Some(value: T)

  /** The Python exceptions the modelled code can raise. */
  datatype PyError =
    | KeyError(key: string)       // a dictionary lookup or `del` of a missing key
    | TypeError(message: string)  // an operation applied to a value of the wrong type

  /** The outcome of an operation that either returns normally or raises. */
  datatype Result<+T> = Ok(value: T) | Err(error: PyError)
}
