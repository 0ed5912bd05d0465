/** The optional value used for partial operations (integer parsing, lookups). */
module Options {

  datatype Option<+T> = None | Some(value: T)
}
