/** Failure-carrying datatypes shared by the whole model.
    `Option` stands for the JavaScript values that may be `null`;
    `Result` stands for an operation that either returns a value or
    throws an `Error` whose message is the only thing a caller sees. */
module Results {

  datatype Option<+T> = None | Some(value: T)

  datatype Result<+T> = Ok(value: T) | Err(message: string)
}
