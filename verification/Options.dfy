/** A value that may be missing: a null pointer, a search without a hit. */
module Options {
  datatype Option<+T> = None | Some(value: T)

  /** Element `i` of a list, or null past its end. */
  function At<E>(s: seq<E>, i: int): Option<E> {
    if 0 <= i < |s| then Some(s[i]) else None
  }
}
