/** The optional value used wherever the source works with a null reference. */
module Options {
  datatype Option<+T> = None | Some(value: T)
}
