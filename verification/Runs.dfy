/** Finite runs of a transition system, shared by every machine of this project. */
module Runs {

  /** `run` starts in an initial state and every two neighbours are related by one step. */
  ghost predicate IsRun<S(!new)>(init: S -> bool, next: (S, S) -> bool, run: seq<S>) {
    && |run| > 0
    && init(run[0])
    && forall i, j :: 0 <= i < j < |run| && j == i + 1 ==> next(run[i], run[j])
  }

  /** What holds initially and is kept by every step holds in every state of every run. */
  lemma {:induction false} Invariance<S(!new)>(init: S -> bool, next: (S, S) -> bool, inv: S -> bool, run: seq<S>)
    requires forall s :: init(s) ==> inv(s)
    requires forall s, s' :: inv(s) && next(s, s') ==> inv(s')
    requires IsRun(init, next, run)
    ensures forall i :: 0 <= i < |run| ==> inv(run[i])
  {
    if |run| > 1 {
      Invariance(init, next, inv, run[..|run| - 1]);
      assert inv(run[..|run| - 1][|run| - 2]);
      assert next(run[|run| - 2], run[|run| - 1]);
    }
  }

  lemma ExtendRun<S(!new)>(init: S -> bool, next: (S, S) -> bool, run: seq<S>, s: S)
    requires IsRun(init, next, run) && next(run[|run| - 1], s)
    ensures IsRun(init, next, run + [s])
  {
    var run' := run + [s];
    assert forall i :: 0 <= i < |run| ==> run'[i] == run[i];
  }
}
