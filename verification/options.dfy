/** The optional value used for nullable fields and for absent request parameters. */
module Options {

  datatype Option<+T> = None | Some(value: T)
}
