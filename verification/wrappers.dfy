/** Option and Result types shared by every module of the model. */
module Wrappers {

  datatype Option<+T> = None | Some(value: T)

  /** The outcome of an operation that the source either completes or aborts by throwing. */
  datatype Result<+R, +E> = Ok(value: R) | Err(error: E)
}
