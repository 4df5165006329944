/** Optional values: a payload field that may be absent (`undefined` or `null` in the source). */
module Wrappers {
  datatype Option<+T> = None | Some(value: T)

  /** The list holding the value if there is one: a one-element list with absent entries filtered out. */
  function ToSeq<T(!new)>(o: Option<T>): (s: seq<T>)
    ensures |s| <= 1
    ensures forall x :: x in s <==> o == Some(x)
  {
    match o
    case None => []
    case Some(v) => [v]
  }
}
