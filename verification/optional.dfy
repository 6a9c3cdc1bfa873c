/** A value that may be missing: an absent header, query parameter or
    patch field. */
module Optional {
  datatype Option<+T> = None | Some(value: T)
}
