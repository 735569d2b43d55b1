/** Values that may be absent, and the runs of a labelled step function. */
module Runs {

  datatype Option<+T> = None | Some(value: T)

  /** The state that the labels `ls` lead to from `s`; `None` when some label is not enabled. */
  function Exec<S, L>(step: (S, L) -> Option<S>, s: S, ls: seq<L>): Option<S>
  {
    if ls == [] then Some(s)
    else match step(s, ls[0])
      case None => None
      case Some(t) => Exec(step, t, ls[1..])
  }

  lemma {:induction false} ExecConcat<S, L>(step: (S, L) -> Option<S>, s: S, ks: seq<L>, ls: seq<L>)
    requires Exec(step, s, ks).Some?
    ensures Exec(step, s, ks + ls) == Exec(step, Exec(step, s, ks).value, ls)
    decreases |ks|
  {
    if ks == [] {
      assert ks + ls == ls;
    } else {
      assert (ks + ls)[1..] == ks[1..] + ls;
      ExecConcat(step, step(s, ks[0]).value, ks[1..], ls);
    }
  }

  ghost predicate Preserved<S(!new), L(!new)>(step: (S, L) -> Option<S>, inv: S -> bool)
  {
    forall s, l :: inv(s) && step(s, l).Some? ==> inv(step(s, l).value)
  }

  /** A property that every step keeps holds in every state of every run. */
  lemma {:induction false} InvariantOnRuns<S(!new), L(!new)>(step: (S, L) -> Option<S>, inv: S -> bool, s: S, ls: seq<L>)
    requires inv(s) && Preserved(step, inv)
    ensures Exec(step, s, ls).Some? ==> inv(Exec(step, s, ls).value)
    decreases |ls|
  {
    if ls != [] && step(s, ls[0]).Some? {
      InvariantOnRuns(step, inv, step(s, ls[0]).value, ls[1..]);
    }
  }

  ghost predicate PreservedRel<S(!new), L(!new)>(step: (S, L) -> Option<S>, inv: S -> bool, rel: (S, S) -> bool)
  {
    && (forall s :: rel(s, s))
    && (forall s, l, u :: inv(s) && step(s, l).Some? && rel(step(s, l).value, u) ==> rel(s, u))
  }

  /** A reflexive relation that every step from a good state extends to the left relates the ends of every run. */
  lemma {:induction false} RelationOnRuns<S(!new), L(!new)>(
    step: (S, L) -> Option<S>, inv: S -> bool, rel: (S, S) -> bool, s: S, ls: seq<L>)
    requires inv(s) && Preserved(step, inv) && PreservedRel(step, inv, rel)
    ensures Exec(step, s, ls).Some? ==> rel(s, Exec(step, s, ls).value)
    decreases |ls|
  {
    if ls != [] && step(s, ls[0]).Some? {
      RelationOnRuns(step, inv, rel, step(s, ls[0]).value, ls[1..]);
    }
  }

  ghost predicate Extends<S(!new), L(!new)>(step: (S, L) -> Option<S>, told: (S, seq<L>) -> bool)
  {
    forall s, ls, l :: told(s, ls) && step(s, l).Some? ==> told(step(s, l).value, ls + [l])
  }

  /** What every step adds to the labels so far and keeps true of the state is true of every run: the state
      says what its labels say. */
  lemma {:induction false} ToldOnRuns<S(!new), L(!new)>(
    step: (S, L) -> Option<S>, told: (S, seq<L>) -> bool, s: S, before: seq<L>, ls: seq<L>)
    requires told(s, before) && Extends(step, told)
    ensures Exec(step, s, ls).Some? ==> told(Exec(step, s, ls).value, before + ls)
    decreases |ls|
  {
    if ls == [] {
      assert before + ls == before;
    } else if step(s, ls[0]).Some? {
      assert (before + [ls[0]]) + ls[1..] == before + ls;
      ToldOnRuns(step, told, step(s, ls[0]).value, before + [ls[0]], ls[1..]);
    }
  }
}
