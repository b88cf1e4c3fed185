/** The exceptions the image handle raises, and the results that carry them. */
module Errors {

  /** Python exceptions raised by the modelled operations. Messages are the ones the
      repository writes, with one exception: `max()` of an empty list raises CPython's own
      ValueError, whose wording belongs to the interpreter. An IndexError is raised by
      Python itself and carries no message here. */
  datatype Error =
    | ValueError(message: string)
    | TypeError(message: string)
    | IndexError

  /** The value of an operation that either returns or raises. */
  datatype Result<T> = Ok(value: T) | Err(error: Error)

  /** The outcome of a guard that either lets the call proceed or raises. */
  datatype Outcome = Pass | Fail(error: Error)

  datatype Option<T> = None | Some(value: T)
}
