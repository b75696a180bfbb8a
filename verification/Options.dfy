/** A value that may be absent: a missing key, `undefined` or `null`. */
module Options {
  datatype Option<+T> = None | Some(value: T)
}
