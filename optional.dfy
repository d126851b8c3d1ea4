/** A value that may be missing, standing for the source's `null`. */
module Optional {

  datatype Option<+T> = None | Some(value: T)

}
