/** Optional values and fallible results, the two shapes the command code uses. */
module Results {

  datatype Option<+T> = None | Some(value: T)

  datatype Result<+T, +E> = Ok(value: T) | Err(error: E)

  /** Puts `p` in front of a decoded word, passing a failure through. */
  function Prepend<T>(p: seq<T>, r: Option<seq<T>>): (r': Option<seq<T>>)
    ensures r'.Some? <==> r.Some?
    ensures r'.Some? ==> r'.value == p + r.value
  {
    match r
    case None => None
    case Some(t) => Some(p + t)
  }
}
