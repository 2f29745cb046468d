/** A value that may be missing: a nullable column, an absent key, a lookup that finds nothing. */
module Options {
  datatype Option<+T> = None | Some(value: T)
}
