module Options {
  /** A value that may be missing: an absent row, a lost reply, an error return. */
  datatype Option<T> = None | Some(value: T)
}
