/** Optional values and first-match search over sequences, shared by the drawer and the scroll handler. */
module Options {

  /** A value that may be absent: stands for a JavaScript reference that may be `null` or `undefined`. */
  datatype Option<+T> = None | Some(value: T) {

    /** The contained value, or `default` when absent: JavaScript's `x || default` on object references. */
    function GetOr(default: T): T {
      match this
      case Some(v) => v
      case None => default
    }
  }

  /** Index of the first element of `s` satisfying `p`, or None when no element does
      (the shape of `Array.prototype.find` and of `Element.closest` walking outward). */
  function FirstIndex<T>(s: seq<T>, p: T -> bool): (r: Option<nat>)
    ensures r.None? <==> forall i :: 0 <= i < |s| ==> !p(s[i])
    ensures r.Some? ==> r.value < |s| && p(s[r.value])
    ensures r.Some? ==> forall i :: 0 <= i < r.value ==> !p(s[i])
  {
    if |s| == 0 then None
    else if p(s[0]) then Some(0)
    else
      match FirstIndex(s[1..], p)
      case None => None
      case Some(k) => Some(k + 1)
  }
}
