/** The optional value used where the modelled code stores `null` or `undefined`. */
module Options {

  datatype Option<+T> = None | Some(value: T)
}
