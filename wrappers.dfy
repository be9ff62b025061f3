/** Failure-carrying values shared by the import flow and the actions commands.
    `Result` stands for Go's `(value, error)` pair: an error is its message. */
module Wrappers {

  datatype Option<+T> = None | Some(value: T)

  datatype Result<+T> = Ok(value: T) | Err(error: string)
}
