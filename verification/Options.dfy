/** The usual optional value, for the source's nullable columns and fields. */
module Options {
  datatype Option<+T> = None | Some(value: T)
}
