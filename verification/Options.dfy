/** The usual sum types for an absent value and for a failed computation. */
module Options {
  datatype Option<+T> = None | Some(value: T)
}
