/** The optional value returned by the operations that can be refused. */
module Optional {
  datatype Option<T> = None | Some(value: T)
}
