/** Optional values and success/failure results, used wherever the
    application has `null`/`undefined` or a thrown error. */
module Outcomes {

  /** `null` or `undefined` in the application become `None`. */
  datatype Option<+T> = None | Some(value: T)

  /** A call that either returns a value or throws an error. */
  datatype Result<+T, +E> = Ok(value: T) | Err(error: E)
}
