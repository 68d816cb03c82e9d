/** An optional value, for results the source gives as `None`. */
module Optional {
  datatype Option<T> = None | Some(value: T)
}
