/**
 When a flow can be lost: only the target that was given the flow state can lose it, by a timeout or
 by a packet that finds its buffer full.
 */
module FlowLoss {
  import opened Wrappers
  import opened NfActor
  import opened Migration

  predicate BufferFull(c: Config, s: Net, i: nat) {
    && i < |s.targets| && s.targets[i].actor.mode == WaitForMigration
    && |s.targets[i].actor.buffer| >= c.limits.bufferSize
  }

  /** Somewhere in the run target `i` takes a packet although its buffer is full. */
  ghost predicate Overflows(c: Config, steps: seq<Step>, i: nat) {
    exists k: nat, r: Net :: OverflowsAt(c, steps, i, k, r)
  }

  ghost predicate OverflowsAt(c: Config, steps: seq<Step>, i: nat, k: nat, r: Net) {
    k < |steps| && Reaches(c, steps[..k], r) && steps[k] == TargetPacket(i) && BufferFull(c, r, i)
  }

  lemma LongerRunOverflows(c: Config, steps: seq<Step>, i: nat)
    requires steps != [] && Overflows(c, steps[..|steps| - 1], i)
    ensures Overflows(c, steps, i)
  {
    var front := steps[..|steps| - 1];
    var k: nat, r: Net :| OverflowsAt(c, front, i, k, r);
    assert steps[..k] == front[..k];
    assert OverflowsAt(c, steps, i, k, r);
  }

  /** A target quits by one of these two steps only. */
  lemma StepToQuit(c: Config, s: Net, a: Step, i: nat)
    requires Enabled(s, a) && i < |Next(c, s, a).targets| && Next(c, s, a).targets[i].actor.mode == Quit
    requires i < |s.targets| ==> s.targets[i].actor.mode in {WaitForMigration, HandlePackets}
    ensures a == TargetTimeout(i) || (a == TargetPacket(i) && BufferFull(c, s, i))
  {
  }

  // ----- Main results

  /** A target that has quit timed out, or took a packet although its buffer was full. */
  lemma {:induction false} QuitHasCause(c: Config, steps: seq<Step>, s: Net, i: nat)
    requires Reaches(c, steps, s) && i < |s.targets| && s.targets[i].actor.mode == Quit
    ensures TargetTimeout(i) in steps || Overflows(c, steps, i)
    decreases |steps|
  {
    if steps != [] {
      var front, a := steps[..|steps| - 1], steps[|steps| - 1];
      var r :| Reaches(c, front, r) && Steps(c, r, a, s);
      assert steps == front + [a];
      if i < |r.targets| && r.targets[i].actor.mode == Quit {
        QuitHasCause(c, front, r, i);
        if Overflows(c, front, i) { LongerRunOverflows(c, steps, i); }
      } else {
        TargetModes(c, front, r, i);
        StepToQuit(c, r, a, i);
        assert a == TargetPacket(i) ==> OverflowsAt(c, steps, i, |front|, r);
      }
    }
  }

  lemma TargetModes(c: Config, steps: seq<Step>, s: Net, i: nat)
    requires Reaches(c, steps, s)
    ensures i < |s.targets| ==> s.targets[i].actor.mode in {WaitForMigration, HandlePackets, Quit}
  {
    ReachableInv(c, steps, s);
    if i < |s.targets| {
      OthersWait(c, s, i);
      if !Processing(s.source.mode) && Current(s, i) { OwnerMode(c, s, i); }
    }
  }

  lemma OwnerMode(c: Config, s: Net, i: nat)
    requires i < |s.targets| && TargetFlow(c, s, i)
    ensures s.targets[i].actor.mode in {WaitForMigration, HandlePackets, Quit}
  {
  }

  /** The flow is lost exactly when the source has handed it over and its target has quit. */
  lemma LostIff(c: Config, steps: seq<Step>, s: Net)
    requires Reaches(c, steps, s)
    ensures OwnerOf(s) == Lost <==>
            !Processing(s.source.mode) && s.targets != [] && s.targets[|s.targets| - 1].actor.mode == Quit
  {
    ReachableInv(c, steps, s);
    OwnerIsLostIff(c, s);
  }

  lemma OwnerIsLostIff(c: Config, s: Net)
    requires Inv(c, s)
    ensures OwnerOf(s) == Lost <==>
            !Processing(s.source.mode) && s.targets != [] && s.targets[|s.targets| - 1].actor.mode == Quit
  {
    OwnerHasTheRest(c, s);
  }

  /**
   A run whose latest target neither times out nor overflows never loses the flow: some actor is where
   one actor would be, and by processing what is on its way to it ends as that actor does.
   */
  lemma NeverLost(c: Config, steps: seq<Step>, s: Net)
    requires Reaches(c, steps, s)
    requires s.targets != [] ==>
               TargetTimeout(|s.targets| - 1) !in steps && !Overflows(c, steps, |s.targets| - 1)
    ensures CarriesOn(c, s) && LikeOneActor(c, s) && OwnerOf(s).Owner?
  {
    LostIff(c, steps, s);
    if OwnerOf(s) == Lost {
      QuitHasCause(c, steps, s, |s.targets| - 1);
    }
    ReachableInv(c, steps, s);
    OwnerHasTheRest(c, s);
    InvIsLikeOneActor(c, s);
  }

  // ----- The buffer and the timeouts

  /** No buffer ever holds more packets than it may. */
  lemma {:induction false} BufferIsBounded(c: Config, steps: seq<Step>, s: Net, i: nat)
    requires Reaches(c, steps, s) && i < |s.targets|
    ensures |s.targets[i].actor.buffer| <= c.limits.bufferSize
    decreases |steps|
  {
    if steps != [] {
      var front, a := steps[..|steps| - 1], steps[|steps| - 1];
      var r :| Reaches(c, front, r) && Steps(c, r, a, s);
      if i < |r.targets| {
        BufferIsBounded(c, front, r, i);
      }
      StepKeepsBuffer(c, r, a, i);
    }
  }

  lemma StepKeepsBuffer(c: Config, s: Net, a: Step, i: nat)
    requires Enabled(s, a) && i < |Next(c, s, a).targets|
    requires i < |s.targets| ==> |s.targets[i].actor.buffer| <= c.limits.bufferSize
    ensures |Next(c, s, a).targets[i].actor.buffer| <= c.limits.bufferSize
  {
  }

  /** A waiting target quits over a packet exactly when its buffer is full, and keeps the packet otherwise. */
  lemma PacketIsBufferedIff(c: Config, s: Net, i: nat)
    requires Enabled(s, TargetPacket(i)) && s.targets[i].actor.mode == WaitForMigration
    ensures var t, u := s.targets[i], Next(c, s, TargetPacket(i)).targets[i];
            && (u.actor.mode == Quit <==> |t.actor.buffer| >= c.limits.bufferSize)
            && (u.actor.mode != Quit ==>
                  u.actor.mode == WaitForMigration && u.actor.buffer + u.inbox == t.actor.buffer + t.inbox
                  && |u.inbox| == |t.inbox| - 1)
  {
    var t := s.targets[i];
    assert t.actor.buffer + t.inbox == t.actor.buffer + [t.inbox[0]] + t.inbox[1..];
  }

  predicate IsWaiting(m: Mode) {
    m in {WaitPrepare, WaitStart, WaitComplete, WaitForMigration}
  }

  /** An actor that waits and times out waits no longer; any other ignores the timeout. */
  lemma TimeoutsEndWaiting(c: Config, s: Net, i: nat)
    ensures var a := Next(c, s, SourceTimeout).source;
            if IsWaiting(s.source.mode) then !IsWaiting(a.mode) else a == s.source
    ensures Enabled(s, TargetTimeout(i)) ==>
              var t, u := s.targets[i].actor, Next(c, s, TargetTimeout(i)).targets[i].actor;
              if IsWaiting(t.mode) then !IsWaiting(u.mode) else u == t
  {
  }
}
