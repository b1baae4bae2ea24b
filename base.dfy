/** Value wrappers shared by every module of the model. */
module Base {

  /** A value that may be missing: a pandas NA / Python None cell, or an absent dictionary key. */
  datatype Option<+T> = None | Some(value: T)

  /** The outcome of a step that can fail with an error the page reports. */
  datatype Result<+T, +E> = Ok(value: T) | Err(error: E)

  /** Calendar dates. Only their order matters to the model, so a date is its day number. */
  type Date = int
}
