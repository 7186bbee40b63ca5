/** The optional values the modelled code writes as an absent field. */
module Options {
  datatype Option<+T> = None | Some(value: T)
}
