/**
 A migration can always succeed: as long as the source processes the flow, there is a continuation in
 which a new target takes it over and the source quits, with nothing left to process.
 */
module Takeover {
  import opened Wrappers
  import opened NfActor
  import opened Migration
  import opened Paths
  import opened FlowPaths

  // ----- Before the attempt

  /** The source is in normal operation, with the same targets and packets as in `s`. */
  predicate Quiet(s: Net, t: Net) {
    t.source.mode == HandlePackets && t.stream == s.stream && t.targets == s.targets
  }

  lemma {:induction false} ObeyAll(c: Config, s: Net) returns (steps: seq<Step>, t: Net)
    requires Inv(c, s) && s.source.mode == HandlePackets
    ensures Path(Protocol(c), s, steps, t) && Inv(c, t) && Quiet(s, t) && t.commands == []
    decreases |s.commands|
  {
    if s.commands == [] {
      steps, t := [], s;
      EmptyPath(Protocol(c), s);
    } else {
      var r := Next(c, s, SwitchCommand);
      Go(c, s, SwitchCommand);
      ObeyIsQuiet(c, s);
      var more, u := ObeyAll(c, r);
      JoinPaths(Protocol(c), s, [SwitchCommand], r, more, u);
      steps, t := [SwitchCommand] + more, u;
    }
  }

  lemma ObeyIsQuiet(c: Config, s: Net)
    requires s.commands != [] && s.source.mode == HandlePackets
    ensures Quiet(s, SwitchObey(s)) && |SwitchObey(s).commands| < |s.commands|
  {
  }

  lemma {:induction false} TakeAll(c: Config, s: Net) returns (steps: seq<Step>, t: Net)
    requires Inv(c, s) && s.source.mode == HandlePackets && s.commands == []
    ensures Path(Protocol(c), s, steps, t) && Inv(c, t) && Quiet(s, t) && t.commands == [] && t.toSource == []
    decreases |s.toSource|
  {
    if s.toSource == [] {
      steps, t := [], s;
      EmptyPath(Protocol(c), s);
    } else {
      var r := Next(c, s, SourceItem(-1));
      Go(c, s, SourceItem(-1));
      ItemIsQuiet(c, s);
      var more, u := TakeAll(c, r);
      JoinPaths(Protocol(c), s, [SourceItem(-1)], r, more, u);
      steps, t := [SourceItem(-1)] + more, u;
    }
  }

  lemma ItemIsQuiet(c: Config, s: Net)
    requires s.toSource != [] && s.source.mode == HandlePackets && s.commands == []
    ensures var t := SourceTakes(c, s, -1, true);
            Quiet(s, t) && t.commands == [] && |t.toSource| < |s.toSource|
  {
  }

  // ----- The attempt

  /** The attempt up to the order to copy: the target has been created and has acknowledged. */
  lemma TargetIsReady(c: Config, s: Net) returns (steps: seq<Step>, t: Net)
    requires Inv(c, s) && s.source.mode == HandlePackets && s.commands == [] && s.toSource == []
    ensures Path(Protocol(c), s, steps, t) && Inv(c, t)
    ensures t.stream == s.stream && t.toSource == [] && t.commands == [CopyTo(|s.targets|)]
    ensures t.source.mode == WaitStart && t.targets == s.targets + [NewTarget(c, true)]
  {
    var i := |s.targets|;
    var r := TargetIsAsked(c, s);
    var more, u := TargetReplies(c, r, i);
    JoinPaths(Protocol(c), s, [Request(1)], r, more, u);
    steps, t := [Request(1)] + more, u;
  }

  lemma TargetReplies(c: Config, s: Net, i: nat) returns (steps: seq<Step>, t: Net)
    requires Inv(c, s) && Current(s, i) && s.targets[i] == NewTarget(c, false) && s.source.mode == WaitPrepare
    ensures Path(Protocol(c), s, steps, t) && Inv(c, t)
    ensures t.stream == s.stream && t.toSource == s.toSource && t.commands == s.commands + [CopyTo(i)]
    ensures t.source.mode == WaitStart && t.targets == s.targets[i := NewTarget(c, true)]
  {
    var r := TargetAccepts(c, s, i);
    t := AckArrivesAt(c, r, i);
    JoinPaths(Protocol(c), s, [Prepare(i, true)], r, [DeliverAck(i)], t);
    steps := [Prepare(i, true)] + [DeliverAck(i)];
  }

  lemma TargetIsAsked(c: Config, s: Net) returns (t: Net)
    requires Inv(c, s) && s.source.mode == HandlePackets
    ensures Path(Protocol(c), s, [Request(1)], t) && Inv(c, t)
    ensures t == s.(source := s.source.(mode := WaitPrepare, migrateTo := 1),
                    targets := s.targets + [NewTarget(c, false)])
  {
    t := Next(c, s, Request(1));
    Go(c, s, Request(1));
  }

  lemma TargetAccepts(c: Config, s: Net, i: nat) returns (t: Net)
    requires Inv(c, s) && Current(s, i) && s.targets[i] == NewTarget(c, false)
    ensures Path(Protocol(c), s, [Prepare(i, true)], t) && Inv(c, t)
    ensures t == s.(targets := s.targets[i := NewTarget(c, true)], acks := s.acks + {i})
  {
    t := Next(c, s, Prepare(i, true));
    Go(c, s, Prepare(i, true));
  }

  lemma AckArrivesAt(c: Config, s: Net, i: nat) returns (t: Net)
    requires Inv(c, s) && Current(s, i) && i in s.acks && s.source.mode == WaitPrepare
    ensures Path(Protocol(c), s, [DeliverAck(i)], t) && Inv(c, t)
    ensures t == s.(source := OnAck(s.source, i), acks := s.acks - {i}, commands := s.commands + [CopyTo(i)])
  {
    t := Next(c, s, DeliverAck(i));
    Go(c, s, DeliverAck(i));
  }

  /** The hand-over: the marker, the flow state, and the target's reply. */
  lemma FlowMoves(c: Config, s: Net, i: nat) returns (steps: seq<Step>, t: Net)
    requires Inv(c, s) && Current(s, i) && s.source.mode == WaitStart && s.targets[i] == NewTarget(c, true)
    requires s.commands == [CopyTo(i)] && s.toSource == []
    ensures Path(Protocol(c), s, steps, t) && Inv(c, t)
    ensures t.stream == s.stream && t.toSource == [] && t.commands == [] && t.dest == Copying(i)
    ensures t.source.mode == WaitComplete && i in t.completions
    ensures |t.targets| == |s.targets| && t.targets[i].actor.mode == HandlePackets && t.targets[i].inbox == []
  {
    var r := MarkerIsSent(c, s, i);
    var q := MarkerIsTaken(c, r, i);
    t := FlowStateArrives(c, q, i);
    JoinPaths(Protocol(c), r, [SourceItem(-1)], q, [TargetFlowState(i)], t);
    JoinPaths(Protocol(c), s, [SwitchCommand], r, [SourceItem(-1)] + [TargetFlowState(i)], t);
    steps := [SwitchCommand] + ([SourceItem(-1)] + [TargetFlowState(i)]);
  }

  lemma MarkerIsSent(c: Config, s: Net, i: nat) returns (t: Net)
    requires Inv(c, s) && s.commands == [CopyTo(i)] && s.toSource == []
    ensures Path(Protocol(c), s, [SwitchCommand], t) && Inv(c, t)
    ensures t == s.(dest := Copying(i), commands := [], toSource := [Marker(i)])
  {
    t := s.(dest := Copying(i), commands := [], toSource := [Marker(i)]);
    assert SwitchObey(s) == t;
    Go(c, s, SwitchCommand);
  }

  lemma MarkerIsTaken(c: Config, s: Net, i: nat) returns (t: Net)
    requires Inv(c, s) && Current(s, i) && s.source.mode == WaitStart && s.toSource == [Marker(i)]
    ensures Path(Protocol(c), s, [SourceItem(-1)], t) && Inv(c, t)
    ensures t == s.(source := s.source.(mode := WaitComplete, counter := 0), toSource := [],
                    targets := s.targets[i := s.targets[i].(flowState := Some(s.source.fs))])
  {
    t := Next(c, s, SourceItem(-1));
    Go(c, s, SourceItem(-1));
    assert s.source.peer == Some(i);
  }

  lemma FlowStateArrives(c: Config, s: Net, i: nat) returns (t: Net)
    requires Inv(c, s) && Current(s, i) && s.targets[i].created && s.targets[i].flowState.Some?
    requires s.targets[i].actor.mode == WaitForMigration
    ensures Path(Protocol(c), s, [TargetFlowState(i)], t) && Inv(c, t)
    ensures t.stream == s.stream && t.toSource == s.toSource && t.commands == s.commands && t.dest == s.dest
    ensures t.source == s.source && i in t.completions && |t.targets| == |s.targets|
    ensures t.targets[i].actor.mode == HandlePackets && t.targets[i].inbox == s.targets[i].inbox
  {
    t := Next(c, s, TargetFlowState(i));
    Go(c, s, TargetFlowState(i));
  }

  /** The completion message ends the source, and the switch stops sending to it. */
  lemma SourceQuits(c: Config, s: Net, i: nat) returns (steps: seq<Step>, t: Net)
    requires Inv(c, s) && Current(s, i) && s.source.mode == WaitComplete && i in s.completions
    requires s.commands == [] && s.dest == Copying(i)
    ensures Path(Protocol(c), s, steps, t) && Inv(c, t)
    ensures t.source.mode == Quit && t.dest == ToTarget(i)
    ensures t.stream == s.stream && t.targets == s.targets && t.toSource == s.toSource
  {
    var r := Next(c, s, DeliverComplete(i));
    Go(c, s, DeliverComplete(i));
    assert r.commands == [CancelSend(i)];
    t := Next(c, r, SwitchCommand);
    Go(c, r, SwitchCommand);
    JoinPaths(Protocol(c), s, [DeliverComplete(i)], r, [SwitchCommand], t);
    steps := [DeliverComplete(i)] + [SwitchCommand];
  }

  // ----- Main result

  lemma FromNormalOperation(c: Config, s: Net) returns (steps: seq<Step>, t: Net)
    requires Inv(c, s) && s.source.mode == HandlePackets
    ensures Path(Protocol(c), s, steps, t) && Inv(c, t) && TakenOver(c, s, t)
  {
    var p1, s1 := ObeyAll(c, s);
    var p2, s2 := TakeAll(c, s1);
    var p3, s3 := TargetIsReady(c, s2);
    var p4, s4 := FlowMoves(c, s3, |s.targets|);
    var p5, s5 := SourceQuits(c, s4, |s.targets|);
    JoinPaths(Protocol(c), s3, p4, s4, p5, s5);
    JoinPaths(Protocol(c), s2, p3, s3, p4 + p5, s5);
    JoinPaths(Protocol(c), s1, p2, s2, p3 + (p4 + p5), s5);
    JoinPaths(Protocol(c), s, p1, s1, p2 + (p3 + (p4 + p5)), s5);
    steps, t := p1 + (p2 + (p3 + (p4 + p5))), s5;
    NothingPending(c, t);
  }

  /** A new target has the flow, the source has quit, and every packet of `s` has been processed. */
  predicate TakenOver(c: Config, s: Net, t: Net) {
    && t.source.mode == Quit && t.stream == s.stream && |t.targets| > |s.targets|
    && var i := |t.targets| - 1;
       && t.dest == ToTarget(i) && t.targets[i].actor.mode == HandlePackets
       && t.log == Actions(c.nf, c.fs, t.stream) && t.targets[i].actor.fs == After(c.nf, c.fs, t.stream)
  }

  lemma NothingPending(c: Config, t: Net)
    requires Inv(c, t) && t.source.mode == Quit && t.targets != []
    requires t.targets[|t.targets| - 1].actor.mode == HandlePackets && t.targets[|t.targets| - 1].inbox == []
    ensures t.log == Actions(c.nf, c.fs, t.stream)
    ensures t.targets[|t.targets| - 1].actor.fs == After(c.nf, c.fs, t.stream)
  {
    OwnerHasTheRest(c, t);
    assert t.stream[|t.log|..] == [];
    assert t.stream[..|t.log|] == t.stream;
  }

  /**
   From every reachable state in which the source processes the flow, whatever attempts have been made
   and abandoned, a migration can succeed, and then everything has been processed as by one actor.
   */
  lemma MigrationCanSucceed(c: Config, steps: seq<Step>, s: Net) returns (more: seq<Step>, t: Net)
    requires Reaches(c, steps, s) && Processing(s.source.mode)
    ensures Reaches(c, steps + more, t) && TakenOver(c, s, t)
  {
    ReachableInv(c, steps, s);
    more, t := FromAnyAttempt(c, s);
    RunIsPath(c, steps, s);
    JoinPaths(Protocol(c), Start(c), steps, s, more, t);
    PathIsRun(c, steps + more, t);
  }

  lemma FromAnyAttempt(c: Config, s: Net) returns (steps: seq<Step>, t: Net)
    requires Inv(c, s) && Processing(s.source.mode)
    ensures Path(Protocol(c), s, steps, t) && TakenOver(c, s, t)
  {
    if s.source.mode == HandlePackets {
      steps, t := FromNormalOperation(c, s);
    } else {
      var r := Next(c, s, SourceTimeout);
      Go(c, s, SourceTimeout);
      var more, u := FromNormalOperation(c, r);
      JoinPaths(Protocol(c), s, [SourceTimeout], r, more, u);
      steps, t := [SourceTimeout] + more, u;
    }
  }
}
