/** The usual optional value, for the source's null and undefined results. */
module Options {
  datatype Option<+T> = None | Some(value: T)
}
