/** The optional value used for the source's null pointers and failed conversions. */
module Options {
  datatype Option<+T> = None | Some(value: T)
}
