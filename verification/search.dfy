/** The scan shared by the explicit regular-expression searches: given, for
    every candidate position, whether the pattern can be taken there, the
    first position that can. */
module Search {
  import opened Wrappers

  /** The first position from i on that is a hit. */
  function FirstHit(hits: seq<bool>, i: nat): (r: Option<nat>)
    requires i <= |hits|
    ensures r.Some? ==> i <= r.value < |hits| && hits[r.value]
    ensures r.Some? ==> forall k | i <= k < r.value :: !hits[k]
    ensures r.None? ==> forall k | i <= k < |hits| :: !hits[k]
    decreases |hits| - i
  {
    if i == |hits| then None
    else if hits[i] then Some(i)
    else FirstHit(hits, i + 1)
  }
}
