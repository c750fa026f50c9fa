module Wrappers {
  datatype Option<T> = None | Some(value: T)

  /** Refused stands for an `abort` or a raised error of the source. */
  datatype Result<T> = Ok(value: T) | Refused
}
