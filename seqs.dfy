/** The array searches the source uses (`find`, `findIndex`, `some`), as
    functions over sequences. */
module Seqs {

  datatype Option<T> = None | Some(value: T)

  /** `Array.prototype.findIndex`: the index of the first element satisfying
      `p`, or `None` where the source gets -1. */
  function FirstIndex<T>(xs: seq<T>, p: T -> bool): (r: Option<nat>)
    ensures r.Some? ==> r.value < |xs| && p(xs[r.value])
    ensures r.Some? ==> forall j :: 0 <= j < r.value ==> !p(xs[j])
    ensures r.None? <==> forall j :: 0 <= j < |xs| ==> !p(xs[j])
  {
    if xs == [] then None
    else if p(xs[0]) then Some(0)
    else match FirstIndex(xs[1..], p)
      case None => None
      case Some(k) => Some(k + 1)
  }

  /** `Array.prototype.some`. */
  predicate Any<T>(xs: seq<T>, p: T -> bool) {
    FirstIndex(xs, p).Some?
  }
}
