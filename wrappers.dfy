/** The failure-carrying result used for teditor's `Result` values and its fatal error paths. */
module Wrappers {

  datatype Result<+T, +E> = Ok(value: T) | Err(error: E)
}
