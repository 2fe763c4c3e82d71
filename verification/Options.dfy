/** A value that may be missing: a null pointer, an unset link, an error return. */
module Options {
  datatype Option<+T> = None | Some(value: T)
}
