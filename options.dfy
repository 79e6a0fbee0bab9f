/** The optional result shared by the search and the resolver. */
module Options {
  datatype Option<T> = None | Some(value: T)
}
