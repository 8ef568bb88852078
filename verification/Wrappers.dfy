/** Failure-carrying result types shared by every other module. */
module Wrappers {

  datatype Option<+T> = None | Some(value: T)

  datatype Result<+R, +E> = Ok(value: R) | Err(error: E)

  /** The error classes of src/lib.rs; the human-readable message is not kept. */
  datatype ErrorKind =
    | AccessDenied
    | InvalidData
    | Io
    | Eof
    | Timeout
    | Internal
    | TryLater
}
