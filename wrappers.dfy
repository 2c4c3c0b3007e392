// Option and Result: how the model carries a missing value (pandas NaN/NaT)
// and an error return (a Python exception caught and turned into a record).
module Wrappers {
  datatype Option<T> = None | Some(value: T)

  datatype Result<T, E> = Ok(value: T) | Err(error: E)
}
