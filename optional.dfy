/** The conventional Some/None datatype, used for Python's `None`-able slots. */
module Optional {

  datatype Option<+T> = None | Some(value: T)
}
