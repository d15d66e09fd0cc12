/** Optional values and error-carrying results. */
module Wrappers {

  /** A value that may be absent: a missing shadow root, an inaccessible frame, a failed lookup. */
  datatype Option<+T> = None | Some(value: T)

  /** The outcome of an entry point that can fail with a message. */
  datatype Result<+T> = Ok(value: T) | Err(message: string)
}
