/** The optional value used where the source has `null`, `undefined` or
    `Infinity` standing for "nothing yet". */
module Options {

  datatype Option<+T> = None | Some(value: T)
}
