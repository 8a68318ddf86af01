/** Optional values, used wherever the program reads something that may be absent
    (`Map.get`, an unset configuration key, a file that cannot be read). */
module Wrappers {

  datatype Option<+T> = None | Some(value: T) {

    /** The value, or `default` when there is none (`?? default` / a `get` default). */
    function GetOr(default: T): T {
      match this
      case Some(v) => v
      case None => default
    }

    /** The value as a one-element sequence, or the empty sequence. */
    function ToSeq(): (r: seq<T>)
      ensures |r| <= 1 && (r == [] <==> None?)
      ensures Some? ==> r == [value]
    {
      match this
      case Some(v) => [v]
      case None => []
    }
  }
}
