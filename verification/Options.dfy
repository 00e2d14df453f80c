/** A value or nothing: the null pointers of the source. */
module Options {
  datatype Option<+T> = None | Some(value: T)
}
