/** An optional value, for lookups that may find nothing and foreign calls that may raise. */
module Options {
  datatype Option<+T> = None | Some(value: T)
}
