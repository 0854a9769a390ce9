/** The two shapes used for "maybe a value" and "a value or a refusal". */
module Results {
  datatype Option<+T> = None | Some(value: T)

  datatype Result<+T, +E> = Ok(value: T) | Err(error: E)
}
