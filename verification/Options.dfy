/** The optional value: a nil pointer, slice or map, or a parse that failed. */
module Options {
  datatype Option<+T> = None | Some(value: T)
}
