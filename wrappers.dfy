/** Option and Result: a missing value (Java's null) and an error path (a thrown exception). */
module Wrappers {
  datatype Option<+T> = None | Some(value: T)

  datatype Result<+T, +E> = Ok(value: T) | Err(error: E)
}
