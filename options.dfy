/** Optional values and error results shared by the dashboard modules. */
module Options {

  /** A value that may be missing: a NaN cell, a NaT timestamp, a failed parse. */
  datatype Option<+T> = None | Some(value: T)

  /** The outcome of a step that can raise, such as a column lookup. */
  datatype Result<+T, +E> = Ok(value: T) | Err(error: E)
}
