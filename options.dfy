/** The optional result of a lookup: Java returns null for a missing mapping. */
module Options {

  datatype Option<T> = None | Some(value: T)
}
