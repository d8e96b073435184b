/** The two failure-carrying shapes used throughout the model. */
module Wrappers {

  datatype Option<+T> = None | Some(value: T)

  /** `Result<T>` of the runtime: a value, or the status code of a failure. */
  datatype Result<+T> = Ok(value: T) | Err(code: StatusCode)

  datatype StatusCode =
    | InvalidArgument
    | NotFound
    | IoError
    | DataLoss
    | Unsupported
    | ResourceExhausted
    | Cancelled
    | Internal
}
