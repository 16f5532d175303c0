/** Optional results: a C++ NaN vector, -1 index or null pointer becomes None. */
module Options {

  datatype Option<T> = None | Some(value: T)

  /** The value as a sequence of zero or one elements, for results that are pushed onto a list. */
  function ToSeq<T>(o: Option<T>): (r: seq<T>)
    ensures |r| <= 1
    ensures o.None? <==> r == []
    ensures o.Some? ==> r == [o.value]
  {
    if o.Some? then [o.value] else []
  }
}
