/** The conventional optional value, used for storage keys that may be absent
    and for the history's "earlier sets hidden" indicator. */
module Options {
  datatype Option<T> = None | Some(value: T)
}
