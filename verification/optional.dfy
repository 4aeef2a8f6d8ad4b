/** Python's `None` and an absent value, as a datatype. */
module Optional {

  datatype Option<+T> = None | Some(value: T)

}
