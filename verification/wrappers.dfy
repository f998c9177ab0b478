/** Python's `None`-or-value results, as an explicit optional. */
module Wrappers {

  datatype Option<+T> = None | Some(value: T)

  /** The empty or one-element sequence holding the value of `o`. */
  function AsSeq<T>(o: Option<T>): seq<T>
  {
    match o
    case None => []
    case Some(v) => [v]
  }
}
