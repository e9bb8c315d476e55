/** The usual optional value: `None` where the source has `undefined` or a falsy property. */
module Options {

  datatype Option<+T> = None | Some(value: T)

}
