/** Results of operations that can be absent or can raise. */
module Outcomes {

  datatype Option<+T> = None | Some(value: T)

  /** `Err` stands for a raised exception; the type argument names its class or cause. */
  datatype Result<+T, +E> = Ok(value: T) | Err(error: E)
}
