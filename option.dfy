/** An optional value: the "absent" case of a lookup, a search or a command-line argument. */
module Options {
  datatype Option<+T> = None | Some(value: T)
}
