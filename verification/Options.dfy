/** A result that may be absent: the source's NULL pointers and -1 identifiers. */
module Options {
  datatype Option<+T> = None | Some(value: T)
}
