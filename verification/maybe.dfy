/** Optional values and success/failure results, used wherever the
    modelled code can return `null`, `undefined` or throw. */
module Maybe {

  /** A value that may be missing (`null`, `undefined` or a thrown
      exception, depending on the caller). */
  datatype Option<+T> = None | Some(value: T)

  /** The outcome of an operation that either succeeds with a value or
      fails with an error that the caller reports. */
  datatype Result<+T, +E> = Ok(value: T) | Err(error: E)
}
