/** Failure-carrying datatypes shared by every module of the model. */
module Wrappers {

  /** Swift's `Optional`: a value or nothing. */
  datatype Option<+T> = None | Some(value: T) {

    /** `self ?? default` */
    function GetOr(default: T): T {
      match this
      case Some(v) => v
      case None => default
    }
  }

  /** Swift's `Result<Success, Failure>`. */
  datatype Result<+T, +E> = Ok(value: T) | Err(error: E)
}
