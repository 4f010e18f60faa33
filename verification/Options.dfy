/** A value that may be missing: a NULL column, a nil, a second result saying "nothing". */
module Options {
  datatype Option<+T> = None | Some(value: T)
}
