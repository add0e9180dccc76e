/** Small helper datatypes shared by the whole model. */
module Base {

  datatype Option<+T> = None | Some(value: T)

  /** The outcome of an operation that may throw: a value, or an error with its message. */
  datatype Result<+T> = Ok(value: T) | Error(message: string)
}
