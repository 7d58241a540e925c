/** A Java reference that may be null, written out as an explicit option. */
module Optional {

  datatype Option<+T> = None | Some(value: T)

}
