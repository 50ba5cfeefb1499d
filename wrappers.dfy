/** Absent values and failing computations. */
module Wrappers {

  /** A cell or lookup that may be null (pandas NaN / NaT, Python None). */
  datatype Option<T> = None | Some(value: T)

  /** A computation that either returns a value or raises an error. */
  datatype Result<T, E> = Ok(value: T) | Err(error: E)
}
