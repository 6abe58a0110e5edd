/** The optional value used for the cursor and for search results. */
module Options {
  datatype Option<+T> = None | Some(value: T)
}
