/** The optional value used wherever the source holds `null`, `undefined` or `None`. */
module Options {

  datatype Option<+T> = None | Some(value: T)
}
