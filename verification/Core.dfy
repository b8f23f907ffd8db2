/** The optional value that the other modules share. */
module Core {
  datatype Option<+T> = None | Some(value: T)
}
