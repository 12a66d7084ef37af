/** The optional value used where the source has None. */
module Options {
  datatype Option<+T> = None | Some(value: T)
}
