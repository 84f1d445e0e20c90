/** A value that may be absent: JavaScript's `null` / `undefined` on the model's side. */
module Optional {
  datatype Option<+T> = None | Some(value: T)
}
