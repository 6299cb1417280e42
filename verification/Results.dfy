/** The two carriers the components share: an optional value, and a value or the error raised instead of it. */
module Results {
  datatype Option<+T> = None | Some(value: T)

  datatype Result<+T, +E> = Ok(value: T) | Err(error: E)
}
