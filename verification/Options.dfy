/** The one datatype every component shares. */
module Options {
  datatype Option<+T> = None | Some(value: T)
}
