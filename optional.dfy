/** The usual Some/None wrapper, used for lookups and partial decoders. */
module Optional {
  datatype Option<+T> = None | Some(value: T)
}
