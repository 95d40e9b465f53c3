/** Optional values and results carrying the text of a raised exception. */
module Results {

  /** A value that may be absent (Python's None). */
  datatype Option<+T> = None | Some(value: T)

  /** The outcome of a computation that may raise: `Err` holds `str(e)`. */
  datatype Result<+T> = Ok(value: T) | Err(error: string)
}
