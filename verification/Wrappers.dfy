/** Results that may be missing, and results that may be errors. */
module Wrappers {

  datatype Option<+T> = Some(value: T) | None

  /** The exceptions the modelled code raises. */
  datatype Error = ValueError | IndexError | KeyError | StructError | ShortRead

  datatype Result<+T> = Ok(value: T) | Err(error: Error)
}
