/** Option and Result values used across the model, for JavaScript's
    `undefined` and for validation outcomes. */
module Base {

  datatype Option<+T> = None | Some(value: T)

  /** The outcome of a schema check: the parsed value, or the set of
      failing fields. */
  datatype Result<+T, +E> = Ok(value: T) | Err(error: E)
}
