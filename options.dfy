/** The optional value used across the model for Python's `None`-or-value. */
module Options {

  datatype Option<+T> = None | Some(value: T)
}
