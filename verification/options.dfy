/** A value that may be missing: Python's `None`, an absent row, or a NULL column. */
module Options {
  datatype Option<T> = None | Some(value: T)
}
