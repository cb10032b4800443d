/** Failure-compatible result types shared by every module of the model. */
module Wrappers {

  /** A value that may be missing: a SQL NULL, a pandas NaN or a Python None. */
  datatype Option<+T> = None | Some(value: T)

  /** The exceptions the modelled Python code raises, by class. */
  datatype Error =
    | ValueError(message: string)
    | KeyError(key: string)
    | FileNotFoundError(path: string)
    | EngineError(message: string)

  /** The outcome of a call that may raise. */
  datatype Result<+R> = Ok(value: R) | Err(error: Error)
}
