/** An optional value, for results the script may leave undetermined. */
module Options {

  datatype Option<+T> = None | Some(value: T)
}
