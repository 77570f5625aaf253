/** The optional value used for a missing voice attachment, a failed decode
    and an absent session key. */
module Options {
  datatype Option<T> = None | Some(value: T)
}
