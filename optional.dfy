/** The optional value used where the C++ code returns a null pointer or reads an optional JSON key. */
module Optional {
  datatype Option<+T> = None | Some(value: T)
}
