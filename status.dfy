/** Outcomes of database operations that can fail on a missing or duplicate key. */
module Status {

  /** The two caller errors the landmark database reports. */
  datatype Error = NotFound | DuplicateKey

  /** The outcome of a mutating operation. */
  datatype Outcome = Pass | Fail(error: Error)

  /** A value that may be absent. */
  datatype Option<T> = None | Some(value: T)

  /** The outcome of a lookup. */
  datatype Result<T> = Ok(value: T) | Err(error: Error)
}
