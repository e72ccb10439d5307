/** Values that may be absent: JavaScript's null, Python's None. */
module Options {
  datatype Option<+T> = None | Some(value: T)
}
