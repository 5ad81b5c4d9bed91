/** An optional value, for JavaScript's `null`/`undefined` and its absent object keys. */
module Optional {
  datatype Option<+T> = None | Some(value: T)
}
