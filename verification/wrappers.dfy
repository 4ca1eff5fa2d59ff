/** Optional values and fallible results shared by every day. */
module Wrappers {

  /** Rust's `Option<T>`. */
  datatype Option<+T> = None | Some(value: T)

  /**
   * A fallible result. Every parse failure of the solvers (a `ParseIntError`,
   * a boxed error message) is the one value `Err`: the model does not keep
   * the messages.
   */
  datatype Result<+T> = Ok(value: T) | Err
}
