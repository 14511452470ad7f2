/** A nullable column or argument. */
module Options {
  datatype Option<+T> = None | Some(value: T)
}
