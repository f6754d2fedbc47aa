/** Values shared by everything that supervises a process. */
module Process {
  import opened Redaction

  datatype Option<+T> = None | Some(value: T)

  datatype Result<+T, +E> = Ok(value: T) | Err(error: E)

  datatype ExitStatus = ExitStatus(success: bool, code: Option<int>, signal: Option<int>)

  datatype ProcessEvent = Stdout(bytes: Bytes) | Stderr(bytes: Bytes) | Exited(exit: ExitStatus)

  datatype ProcessError = Spawn | Write | ReadFailed | Terminate | ReattachUnsupported | Missing | LimitExceeded
}
