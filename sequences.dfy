/** `Enumerable.FirstOrDefault(predicate)` over a sequence, by position. */
module Sequences {
  import opened Types

  /** The position of the first element satisfying `matches`, or None when
      there is none. */
  function FirstMatch<T>(s: seq<T>, matches: T -> bool): (r: Option<nat>)
    ensures r.Some? ==> r.value < |s| && matches(s[r.value])
    ensures r.Some? ==> forall j :: 0 <= j < r.value ==> !matches(s[j])
    ensures r.None? ==> forall j :: 0 <= j < |s| ==> !matches(s[j])
  {
    if |s| == 0 then None
    else if matches(s[0]) then Some(0)
    else match FirstMatch(s[1..], matches)
      case None => None
      case Some(k) => Some(k + 1)
  }
}
