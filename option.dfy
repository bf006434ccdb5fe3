/** An optional value: JavaScript's `null` (or any falsy object reference) becomes `None`. */
module Optional {
  datatype Option<T> = None | Some(value: T)
}
