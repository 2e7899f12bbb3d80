/** Failure-carrying result types and the array search shared by the locker and order modules. */
module Common {

  datatype Option<+T> = None | Some(value: T)

  /** A value, or the error the source would throw or send back instead. */
  datatype Result<+R, +E> = Ok(value: R) | Err(error: E)

  /** An operation that either succeeded or failed with an error and returns nothing else. */
  datatype Outcome<+E> = Pass | Fail(error: E)

  /** Moment in time, in milliseconds as `Date.now()` gives it; always passed in by the caller. */
  type Time = int

  /** JavaScript's `Array.prototype.find`, returning the position of the element it finds:
      the first index whose element satisfies `p`, or None when no element does. */
  function FirstIndex<T>(s: seq<T>, p: T -> bool): (r: Option<nat>)
    ensures r.Some? ==> r.value < |s| && p(s[r.value])
    ensures r.Some? ==> forall j :: 0 <= j < r.value ==> !p(s[j])
    ensures r.None? ==> forall j :: 0 <= j < |s| ==> !p(s[j])
  {
    if |s| == 0 then None
    else if p(s[0]) then Some(0)
    else match FirstIndex(s[1..], p)
      case None => None
      case Some(k) => Some(k + 1)
  }
}
