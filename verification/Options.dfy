/** The usual Some/None datatype, standing in for a nullable engine reference. */
module Options {

  datatype Option<+T> = None | Some(value: T)

}
