/** The Some/None datatype standing in for Java references that may be null
    and for key lookups that may find nothing. */
module Optional {

  datatype Option<+T> = None | Some(value: T)
}
