/** Paths of a step relation: from one state to another by a sequence of steps. */
module Paths {
  ghost predicate StepAt<S(!new), A(!new)>(step: (S, A, S) -> bool, states: seq<S>, steps: seq<A>, i: nat)
    requires i < |steps| && |states| == |steps| + 1
  {
    step(states[i], steps[i], states[i + 1])
  }

  ghost predicate IsPath<S(!new), A(!new)>(step: (S, A, S) -> bool, states: seq<S>, s: S, steps: seq<A>, t: S) {
    && |states| == |steps| + 1 && states[0] == s && states[|steps|] == t
    && forall i :: 0 <= i < |steps| ==> StepAt(step, states, steps, i)
  }

  /** The steps, one after the other, lead from `s` to `t`. */
  ghost predicate Path<S(!new), A(!new)>(step: (S, A, S) -> bool, s: S, steps: seq<A>, t: S) {
    exists states :: IsPath(step, states, s, steps, t)
  }

  lemma EmptyPath<S(!new), A(!new)>(step: (S, A, S) -> bool, s: S)
    ensures Path(step, s, [], s)
  {
    assert IsPath(step, [s], s, [], s);
  }

  lemma OneStep<S(!new), A(!new)>(step: (S, A, S) -> bool, s: S, a: A, t: S)
    requires step(s, a, t)
    ensures Path(step, s, [a], t)
  {
    assert StepAt(step, [s, t], [a], 0);
    assert IsPath(step, [s, t], s, [a], t);
  }

  lemma JoinPaths<S(!new), A(!new)>(step: (S, A, S) -> bool, s: S, steps: seq<A>, t: S, more: seq<A>, u: S)
    requires Path(step, s, steps, t) && Path(step, t, more, u)
    ensures Path(step, s, steps + more, u)
  {
    var a :| IsPath(step, a, s, steps, t);
    var b :| IsPath(step, b, t, more, u);
    var states := a + b[1..];
    forall i | 0 <= i < |steps + more| ensures StepAt(step, states, steps + more, i) {
      if i < |steps| {
        assert StepAt(step, a, steps, i);
      } else {
        assert StepAt(step, b, more, i - |steps|);
      }
    }
    assert IsPath(step, states, s, steps + more, u);
  }

  lemma LastStep<S(!new), A(!new)>(step: (S, A, S) -> bool, s: S, steps: seq<A>, t: S) returns (r: S)
    requires Path(step, s, steps, t) && steps != []
    ensures Path(step, s, steps[..|steps| - 1], r) && step(r, steps[|steps| - 1], t)
  {
    var states :| IsPath(step, states, s, steps, t);
    var k := |steps| - 1;
    var front, init := steps[..k], states[..k + 1];
    forall i | 0 <= i < k ensures StepAt(step, init, front, i) {
      assert StepAt(step, states, steps, i);
    }
    r := states[k];
    assert IsPath(step, init, s, front, r);
    assert StepAt(step, states, steps, k);
  }

  lemma LongerPath<S(!new), A(!new)>(step: (S, A, S) -> bool, s: S, steps: seq<A>, r: S, t: S)
    requires steps != [] && Path(step, s, steps[..|steps| - 1], r) && step(r, steps[|steps| - 1], t)
    ensures Path(step, s, steps, t)
  {
    var k := |steps| - 1;
    OneStep(step, r, steps[k], t);
    JoinPaths(step, s, steps[..k], r, [steps[k]], t);
    assert steps == steps[..k] + [steps[k]];
  }
}
