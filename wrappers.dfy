/** Failure-carrying results shared by every module of the model. */
module Wrappers {

  datatype Option<T> = None | Some(value: T)

  /** An operation that either produces a value or fails with a reason
      (a thrown exception, an undefined access). */
  datatype Result<T> = Ok(value: T) | Err(reason: string)
}
