/** A value that may be missing: a NULL pointer, an absent XML node. */
module Optional {
  datatype Option<T> = None | Some(value: T)
}
