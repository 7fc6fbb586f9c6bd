/** Readings of the outside world (the wall clock, the detector temperature)
    supplied as finite sequences: the k-th query answers the k-th reading, and
    once the supplied readings are used up every further query answers the
    last one. */
module Readings {

  function ReadingAt<T>(s: seq<T>, k: nat): (r: T)
    requires |s| > 0
    ensures k < |s| ==> r == s[k]
    ensures |s| <= k ==> r == s[|s| - 1]
  {
    if k < |s| then s[k] else s[|s| - 1]
  }

  /** The supplied clock readings end after `sunrise`: the night ends. */
  predicate NightEnds(clock: seq<int>, sunrise: int) {
    |clock| > 0 && clock[|clock| - 1] > sunrise
  }
}
