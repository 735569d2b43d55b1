/** Parts of a list, described by positions: which elements a loop with a `continue` keeps. */
module Picks {

  predicate Increasing(idx: seq<nat>) { forall j, k :: 0 <= j < k < |idx| ==> idx[j] < idx[k] }

  /** All the pieces, one after the other. */
  function Concat<T>(pieces: seq<seq<T>>): seq<T> {
    if pieces == [] then [] else Concat(pieces[..|pieces| - 1]) + pieces[|pieces| - 1]
  }

  /** One more position at the end. */
  lemma SnocPicks(idx: seq<nat>, n: nat)
    requires Increasing(idx) && forall i: nat :: i in idx ==> i < n
    ensures Increasing(idx + [n])
    ensures forall i: nat :: i in idx + [n] <==> i in idx || i == n
  {
    assert forall k :: 0 <= k < |idx| ==> idx[k] in idx;
  }
}
