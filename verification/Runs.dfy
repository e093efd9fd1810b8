/** Induction along a run, for any step relation. */
module Runs {

  /** run[j + 1] follows run[j] by acts[j]. */
  ghost predicate IsRunOf<S, A>(step: (S, A, S) -> bool, run: seq<S>, acts: seq<A>)
  {
    |run| == |acts| + 1 && forall j :: 0 <= j < |acts| ==> step(run[j], acts[j], run[j + 1])
  }

  /** What holds at the start, and is kept by every step, holds throughout. */
  lemma {:induction false} Throughout<S, A>(step: (S, A, S) -> bool, ok: S -> bool, run: seq<S>, acts: seq<A>, k: nat)
    requires IsRunOf(step, run, acts) && ok(run[0]) && k < |run|
    requires forall j :: 0 <= j < |acts| && ok(run[j]) && step(run[j], acts[j], run[j + 1]) ==> ok(run[j + 1])
    ensures ok(run[k])
  {
    if k > 0 {
      Throughout(step, ok, run, acts, k - 1);
      assert step(run[k - 1], acts[k - 1], run[k - 1 + 1]);
    }
  }

  /** The acts lead from x to y. */
  ghost predicate Leads<S(!new), A(!new)>(step: (S, A, S) -> bool, x: S, acts: seq<A>, y: S)
  {
    exists run: seq<S> :: IsRunOf(step, run, acts) && run[0] == x && run[|acts|] == y
  }

  lemma LeadsNowhere<S(!new), A(!new)>(step: (S, A, S) -> bool, x: S)
    ensures Leads(step, x, [], x)
  {
    assert IsRunOf(step, [x], []);
  }

  lemma LeadsOnce<S(!new), A(!new)>(step: (S, A, S) -> bool, x: S, a: A, y: S)
    requires step(x, a, y)
    ensures Leads(step, x, [a], y)
  {
    assert IsRunOf(step, [x, y], [a]);
  }

  lemma LeadsThen<S(!new), A(!new)>(step: (S, A, S) -> bool, x: S, acts: seq<A>, y: S, more: seq<A>, z: S)
    requires Leads(step, x, acts, y) && Leads(step, y, more, z)
    ensures Leads(step, x, acts + more, z)
  {
    var r: seq<S> :| IsRunOf(step, r, acts) && r[0] == x && r[|acts|] == y;
    var q: seq<S> :| IsRunOf(step, q, more) && q[0] == y && q[|more|] == z;
    var run, all := r + q[1..], acts + more;
    forall j | 0 <= j < |all| ensures step(run[j], all[j], run[j + 1]) {
      if j < |acts| {
        assert step(r[j], acts[j], r[j + 1]);
      } else {
        assert step(q[j - |acts|], more[j - |acts|], q[j - |acts| + 1]);
      }
    }
    assert IsRunOf(step, run, all);
  }
}
