/** Optional values, used for results that can fail and for pointers that can be null. */
module Wrappers {
  datatype Option<T> = None | Some(value: T)

  /** `x` in front of the sequence held by `o`, or None when `o` is None. */
  function Prefixed<T>(x: seq<T>, o: Option<seq<T>>): (r: Option<seq<T>>)
    ensures r.Some? <==> o.Some?
    ensures r.Some? ==> r.value == x + o.value
  {
    match o
    case None => None
    case Some(v) => Some(x + v)
  }

  lemma PrefixedTwice<T>(x: seq<T>, y: seq<T>, o: Option<seq<T>>)
    ensures Prefixed(x, Prefixed(y, o)) == Prefixed(x + y, o)
  {
    match o
    case None =>
    case Some(v) => assert x + (y + v) == (x + y) + v;
  }
}
