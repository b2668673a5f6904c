// The optional value used for JavaScript results that may be NaN or undefined.

module Options {
  datatype Option<T> = None | Some(value: T)
}
