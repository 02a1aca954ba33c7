/** The paths of the migration protocol. */
module FlowPaths {
  import opened NfActor
  import opened Migration
  import opened Paths

  ghost function Protocol(c: Config): (Net, Step, Net) -> bool {
    (r: Net, a: Step, s: Net) => Steps(c, r, a, s)
  }

  /** The paths from the initial state are the runs. */
  lemma {:induction false} PathIsRun(c: Config, steps: seq<Step>, t: Net)
    requires Path(Protocol(c), Start(c), steps, t)
    ensures Reaches(c, steps, t)
    decreases |steps|
  {
    if steps != [] {
      var r := LastStep(Protocol(c), Start(c), steps, t);
      PathIsRun(c, steps[..|steps| - 1], r);
    } else {
      var states :| IsPath(Protocol(c), states, Start(c), steps, t);
    }
  }

  lemma {:induction false} RunIsPath(c: Config, steps: seq<Step>, t: Net)
    requires Reaches(c, steps, t)
    ensures Path(Protocol(c), Start(c), steps, t)
    decreases |steps|
  {
    if steps == [] {
      EmptyPath(Protocol(c), t);
    } else {
      var k := |steps| - 1;
      var r :| Reaches(c, steps[..k], r) && Steps(c, r, steps[k], t);
      RunIsPath(c, steps[..k], r);
      LongerPath(Protocol(c), Start(c), steps, r, t);
    }
  }

  lemma Go(c: Config, s: Net, a: Step)
    requires Inv(c, s) && Enabled(s, a)
    ensures Path(Protocol(c), s, [a], Next(c, s, a)) && Inv(c, Next(c, s, a))
  {
    OneStep(Protocol(c), s, a, Next(c, s, a));
    StepKeepsInv(c, s, a);
  }
}
