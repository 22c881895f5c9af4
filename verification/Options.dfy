/** An optional value: a nullable column, or a pointer that may be nil. */
module Options {
  datatype Option<+T> = None | Some(value: T)
}
