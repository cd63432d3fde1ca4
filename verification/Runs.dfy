/** Runs of a step relation, and what they lead to. */
module Runs {

  /** The states of an execution, one step apart. */
  ghost predicate IsRun<S(!new)>(step: (S, S) -> bool, run: seq<S>) {
    |run| > 0 && forall i :: 0 <= i < |run| - 1 ==> step(run[i], run[i + 1])
  }

  /** `w` can be reached from `v`. */
  ghost predicate Leads<S(!new)>(step: (S, S) -> bool, v: S, w: S) {
    exists run :: IsRun(step, run) && run[0] == v && run[|run| - 1] == w
  }

  lemma StaysLeads<S(!new)>(step: (S, S) -> bool, v: S)
    ensures Leads(step, v, v)
  {
    var run := [v];
    assert IsRun(step, run) && run[0] == v && run[|run| - 1] == v;
  }

  lemma StepLeads<S(!new)>(step: (S, S) -> bool, v: S, w: S, z: S)
    requires Leads(step, v, w) && step(w, z)
    ensures Leads(step, v, z)
  {
    var run :| IsRun(step, run) && run[0] == v && run[|run| - 1] == w;
    var longer := run + [z];
    forall i | 0 <= i < |longer| - 1 ensures step(longer[i], longer[i + 1]) {
      if i < |run| - 1 { assert step(run[i], run[i + 1]); }
    }
    assert IsRun(step, longer) && longer[0] == v && longer[|longer| - 1] == z;
  }
}
