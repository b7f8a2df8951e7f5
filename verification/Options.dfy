/** A value that may be missing: None, null or undefined in the programs modelled here. */
module Options {
  datatype Option<+T> = None | Some(value: T)
}
