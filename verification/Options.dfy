/** A value that a column or a match may lack. */
module Options {
  datatype Option<+T> = None | Some(value: T)
}
