/** The present-or-absent value used for the fields the Ruby code leaves `nil`. */
module Optional {

  datatype Option<+T> = None | Some(value: T)
}
