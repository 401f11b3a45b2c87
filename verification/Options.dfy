/** The two value shapes every module shares: a value that may be missing, and an answer that may fail. */
module Options {
  datatype Option<+T> = None | Some(value: T)

  datatype Result<+T> = Ok(value: T) | Err
}
