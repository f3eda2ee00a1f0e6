/** The absent-or-present and success-or-error values the model returns where the source
    returns `None`, raises, or reports `False`. */
module Wrappers {
  datatype Option<T> = None | Some(value: T)

  datatype Result<T, E> = Ok(value: T) | Err(error: E)
}
