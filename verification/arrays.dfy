/** The JavaScript array operations the wallet and the driver use to look
    keys up and to drop them. */
module Arrays {
  import opened Wrappers

  /** `xs.findIndex(p)`, with `None` for the -1 it returns when nothing
      matches: the index of the FIRST element satisfying `p`. */
  function FindIndex<T>(xs: seq<T>, p: T -> bool): (r: Option<nat>)
    ensures r.Some? ==> r.value < |xs| && p(xs[r.value])
    ensures r.Some? ==> forall j :: 0 <= j < r.value ==> !p(xs[j])
    ensures r.None? <==> forall j :: 0 <= j < |xs| ==> !p(xs[j])
  {
    if xs == [] then None
    else if p(xs[0]) then Some(0)
    else match FindIndex(xs[1..], p)
      case None => None
      case Some(i) => Some(i + 1)
  }

  /** `xs.find(p)`: the first element satisfying `p`, if any. */
  function Find<T>(xs: seq<T>, p: T -> bool): (r: Option<T>)
    ensures r.Some? <==> exists j :: 0 <= j < |xs| && p(xs[j])
    ensures r.Some? ==> exists j :: 0 <= j < |xs| && xs[j] == r.value && p(xs[j]) &&
                                   forall k :: 0 <= k < j ==> !p(xs[k])
  {
    match FindIndex(xs, p)
    case None => None
    case Some(i) => Some(xs[i])
  }

  /** What `xs.splice(i, 1)` leaves in `xs`: element `i` is gone and the others
      keep their relative order. */
  function RemoveAt<T>(xs: seq<T>, i: nat): (r: seq<T>)
    requires i < |xs|
    ensures |r| == |xs| - 1
    ensures forall j :: 0 <= j < i ==> r[j] == xs[j]
    ensures forall j :: i <= j < |r| ==> r[j] == xs[j + 1]
    ensures multiset(r) + multiset{xs[i]} == multiset(xs)
  {
    assert xs == xs[..i] + [xs[i]] + xs[i + 1..];
    xs[..i] + xs[i + 1..]
  }
}
