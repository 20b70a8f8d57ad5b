/** Option and Result, the two wrappers the linter's Rust code returns. */
module Common {

  datatype Option<T> = None | Some(value: T)

  /** `Result<T, String>`: every fallible step of the linter reports a message. */
  datatype Result<T> = Ok(value: T) | Err(error: string)
}
