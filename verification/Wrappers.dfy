/** Failure types shared by the model: what the C++ code throws becomes an error value. */
module Wrappers {

  datatype Option<+T> = None | Some(value: T)

  /** The exception classes the modelled code throws. */
  datatype Error = BadArgs | InternalError | ConsistencyError

  datatype Result<+T> = Ok(value: T) | Err(error: Error)
}
