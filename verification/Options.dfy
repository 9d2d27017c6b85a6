/** A value that may be absent: the source's `null` and missing fields. */
module Options {
  datatype Option<+T> = None | Some(value: T)
}
