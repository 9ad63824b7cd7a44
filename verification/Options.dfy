module Options {
  /** A nullable column or an absent result. */
  datatype Option<+T> = None | Some(value: T)
}
