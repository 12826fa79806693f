/** An optional value: what the program writes as a nil pointer, a missing map entry or an absent option. */
module Options {
  datatype Option<T> = None | Some(value: T)
}
