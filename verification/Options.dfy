/** Values that may be absent: null pointers and optional parts of the sources. */
module Options {
  datatype Option<+T> = None | Some(value: T)
}
