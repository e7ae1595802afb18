/** The optional value used for fields the source leaves `undefined`. */
module Options {
  datatype Option<+T> = None | Some(value: T)
}
