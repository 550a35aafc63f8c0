/** The value-or-nothing type every module of the model shares. */
module Options {
  datatype Option<+T> = None | Some(value: T)
}
