/** Small shared vocabulary: optional values and the outcome of a call that may throw. */
module Prelude {

  datatype Option<+T> = None | Some(value: T)

  /** Which exception was thrown. */
  datatype Failure = TransferFailed | ResolveFailed | AccountNotFound

  /** `Err` stands for a thrown exception. */
  datatype Result<+T> = Ok(value: T) | Err(error: Failure)
}
