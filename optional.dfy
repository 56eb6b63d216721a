/** A C pointer that may be NULL: `None` stands for NULL. */
module Optional {
  datatype Option<+T> = None | Some(value: T)
}
