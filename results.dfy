/** Option and Result values for the operations of the client that can fail. */
module Results {

  datatype Option<+T> = None | Some(value: T)

  /** `Err` stands for an exception the source raises, with its message. */
  datatype Result<+T> = Ok(value: T) | Err(message: string)
}
