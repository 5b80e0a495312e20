/** The optional value used for "maybe a hit" and "maybe an accepted sample". */
module Optional {
  datatype Option<T> = None | Some(value: T)
}
