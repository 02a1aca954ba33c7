/**
 Start atoms that reach a source while it waits for its marker: the marker of an abandoned attempt,
 or a second migration request. The source cannot tell them from its marker.
 */
module StrayAtoms {
  import opened Wrappers
  import opened NfActor
  import opened Migration

  // ----- When a stray start atom does no harm

  /** A start atom that reaches a waiting source and is not its marker. */
  predicate IsStray(s: Net, a: Step) {
    && s.source.mode == WaitStart
    && (a.Request?
        || (a.SourceItem? && s.toSource != [] && s.toSource[0].Marker? && !Current(s, s.toSource[0].attempt)))
  }

  /** The packets on their way to the source ahead of the marker of attempt `i`. */
  function Ahead(items: seq<Item>, i: nat): seq<Packet> {
    if items == [] || items[0] == Marker(i) then []
    else (if items[0].Pkt? then [items[0].p] else []) + Ahead(items[1..], i)
  }

  /** The target waits, the switch copies to it, and the source has seen every packet before the copies. */
  predicate Harmless(s: Net) {
    s.targets != [] &&
    var i := |s.targets| - 1;
    s.targets[i].actor.mode == WaitForMigration && s.dest == Copying(i) && Ahead(s.toSource, i) == []
  }

  /** Steps of the protocol, and stray start atoms that meet the condition. */
  ghost predicate ReachesHarmlessly(c: Config, steps: seq<Step>, s: Net)
    decreases |steps|
  {
    if steps == [] then s == Start(c)
    else
      var a := steps[|steps| - 1];
      exists r :: ReachesHarmlessly(c, steps[..|steps| - 1], r) && HarmlessStep(c, r, a, s)
  }

  predicate HarmlessStep(c: Config, r: Net, a: Step, s: Net) {
    Steps(c, r, a, s) || (IsStray(r, a) && Harmless(r) && s == NextWith(c, r, a, false))
  }

  lemma {:induction false} AheadOfMarker(before: seq<Item>, i: nat, after: seq<Item>)
    requires Marker(i) !in before
    ensures Ahead(before + [Marker(i)] + after, i) == Packets(before)
    decreases |before|
  {
    if before != [] {
      var items := before + [Marker(i)] + after;
      assert items[0] == before[0] && items[1..] == before[1..] + [Marker(i)] + after;
      AheadOfMarker(before[1..], i, after);
      PopFront(before);
    }
  }

  /** The source has taken the stray atom, and hands its flow state over to target `i`. */
  predicate HandsOver(s: Net, r: Net, i: nat) {
    && i == |s.targets| - 1 && s.source.mode == WaitStart
    && r == s.(source := s.source.(mode := WaitComplete, counter := 0),
               targets := s.targets[i := s.targets[i].(flowState := Some(s.source.fs))])
  }

  /** With the atom taken from the channel, if it came through the channel, the hand-over remains. */
  lemma StrayHandsOver(c: Config, s: Net, a: Step) returns (t: Net)
    requires Inv(c, s) && IsStray(s, a)
    ensures Inv(c, t) && (Harmless(t) <==> Harmless(s))
    ensures t.targets != [] && HandsOver(t, NextWith(c, s, a, false), |t.targets| - 1)
  {
    if a.Request? {
      t := s;
    } else {
      t := s.(toSource := s.toSource[1..]);
      MarkerIsIgnored(c, s, t);
      SameAhead(s, t);
    }
    AtomHandsOver(c, t, a.node);
  }

  lemma SameAhead(s: Net, t: Net)
    requires s.toSource != [] && s.toSource[0].Marker? && !Current(s, s.toSource[0].attempt)
    requires t == s.(toSource := s.toSource[1..])
    ensures Harmless(t) <==> Harmless(s)
  {
    assert s.targets != [] ==> Ahead(s.toSource, |s.targets| - 1) == [] + Ahead(t.toSource, |s.targets| - 1);
  }

  lemma AtomHandsOver(c: Config, t: Net, node: int)
    requires Inv(c, t) && t.source.mode == WaitStart
    ensures t.targets != [] && HandsOver(t, AfterStartAtom(c, t, node), |t.targets| - 1)
  {
  }

  lemma HandOverIff(c: Config, s: Net, r: Net, p: Packet)
    requires Inv(c, s) && s.targets != [] && HandsOver(s, r, |s.targets| - 1)
    ensures CarriesOn(c, r) && CarriesOn(c, SwitchForward(r, p)) <==> Harmless(s)
  {
    var i := |s.targets| - 1;
    assert Waiting(s.targets[i]);
    if s.targets[i].actor.mode == Quit {
      assert OwnerOf(r) == Lost;
    } else if Marked(s, i) {
      EarlyWhileCopying(c, s, r, i, p);
    } else {
      EarlyBeforeCopying(c, s, r, i, p);
    }
  }

  lemma EarlyBeforeCopying(c: Config, s: Net, r: Net, i: nat, p: Packet)
    requires SourceFlow(c, s) && !s.dest.ToTarget? && Ordered(s, i) && HandsOver(s, r, i)
    requires s.targets[i].actor.mode == WaitForMigration
    ensures s.dest != Copying(i) && !CarriesOn(c, SwitchForward(r, p))
  {
    var q := SwitchForward(r, p);
    assert q.targets[i] == r.targets[i] && q.stream == s.stream + [p];
    assert OwnerOf(q) == Owner(s.source.fs, []);
    assert |q.stream[|q.log|..]| > 0;
  }

  lemma EarlyWhileCopying(c: Config, s: Net, r: Net, i: nat, p: Packet)
    requires Inv(c, s) && Marked(s, i) && HandsOver(s, r, i) && s.targets[i].actor.mode == WaitForMigration
    ensures CarriesOn(c, r) <==> Ahead(s.toSource, i) == []
    ensures Ahead(s.toSource, i) == [] ==> Inv(c, r) && CarriesOn(c, SwitchForward(r, p))
  {
    var copied := SplitAtMarker(s, i);
    var t := s.targets[i];
    assert s.stream[|s.log|..] == Ahead(s.toSource, i) + copied;
    assert OwnerOf(r) == Owner(s.source.fs, t.actor.buffer + t.inbox);
    if Ahead(s.toSource, i) == [] {
      assert Ahead(s.toSource, i) + copied == copied;
      EarlyInv(c, s, r, i);
      EarlyCarriesOn(c, r, p);
    } else {
      assert |Ahead(s.toSource, i) + copied| > |copied|;
    }
  }

  lemma SplitAtMarker(s: Net, i: nat) returns (copied: seq<Packet>)
    requires Marked(s, i) && s.targets[i].actor.mode == WaitForMigration
    ensures copied == s.targets[i].actor.buffer + s.targets[i].inbox
    ensures Packets(s.toSource) == Ahead(s.toSource, i) + copied
  {
    var before, after :| MarkerSplits(s, i, before, after);
    AheadOfMarker(before, i, after);
    PacketsConcat(before + [Marker(i)], after);
    PacketsAppend(before, Marker(i));
    copied := Packets(after);
  }

  lemma EarlyInv(c: Config, s: Net, r: Net, i: nat)
    requires Inv(c, s) && Marked(s, i) && HandsOver(s, r, i) && s.targets[i].actor.mode == WaitForMigration
    requires s.stream[|s.log|..] == s.targets[i].actor.buffer + s.targets[i].inbox
    ensures Inv(c, r)
  {
    EarlyControl(s, r, i);
    assert TargetFlow(c, r, i);
  }

  lemma EarlyCarriesOn(c: Config, r: Net, p: Packet)
    requires Inv(c, r) && r.source.mode == WaitComplete
    requires r.targets[|r.targets| - 1].actor.mode == WaitForMigration
    ensures CarriesOn(c, SwitchForward(r, p))
  {
    var q := SwitchForward(r, p);
    ArriveAtTarget(c, r, p);
    OwnerHasTheRest(c, q);
  }

  lemma EarlyControl(s: Net, r: Net, i: nat)
    requires Bounded(s) && SourceControl(s) && Marked(s, i) && HandsOver(s, r, i)
    ensures Bounded(r) && TargetControl(r, i)
  {
    assert forall k :: 0 <= k < |s.targets| && k != i ==> r.targets[k] == s.targets[k];
  }

  // ----- Main results

  lemma {:induction false} HarmlessInv(c: Config, steps: seq<Step>, s: Net)
    requires ReachesHarmlessly(c, steps, s)
    ensures Inv(c, s)
    decreases |steps|
  {
    if steps != [] {
      var front, a := steps[..|steps| - 1], steps[|steps| - 1];
      var r :| ReachesHarmlessly(c, front, r) && HarmlessStep(c, r, a, s);
      HarmlessInv(c, front, r);
      if Steps(c, r, a, s) {
        StepKeepsInv(c, r, a);
      } else {
        HarmlessKeepsInv(c, r, a);
      }
    }
  }

  lemma HarmlessKeepsInv(c: Config, s: Net, a: Step)
    requires Inv(c, s) && IsStray(s, a) && Harmless(s)
    ensures Inv(c, NextWith(c, s, a, false))
  {
    var t := StrayHandsOver(c, s, a);
    HarmlessHandOver(c, t, NextWith(c, s, a, false), |t.targets| - 1);
  }

  lemma HarmlessHandOver(c: Config, s: Net, r: Net, i: nat)
    requires Inv(c, s) && Harmless(s) && HandsOver(s, r, i)
    ensures Inv(c, r)
  {
    assert Marked(s, i);
    var copied := SplitAtMarker(s, i);
    assert [] + copied == copied;
    EarlyInv(c, s, r, i);
  }

  /** Every run in which each stray start atom meets the condition behaves like one actor. */
  lemma HarmlessRunsBehaveLikeOneActor(c: Config, steps: seq<Step>, s: Net)
    requires ReachesHarmlessly(c, steps, s)
    ensures LikeOneActor(c, s)
  {
    HarmlessInv(c, steps, s);
    InvIsLikeOneActor(c, s);
  }

  /**
   And the condition is exact: after a stray start atom that does not meet it the flow is broken, at
   once or by the next packet, whichever packet that is.
   */
  lemma StrayStartAtomIff(c: Config, steps: seq<Step>, s: Net, a: Step, p: Packet)
    requires ReachesHarmlessly(c, steps, s) && IsStray(s, a)
    ensures var r := NextWith(c, s, a, false);
            CarriesOn(c, r) && CarriesOn(c, SwitchForward(r, p)) <==> Harmless(s)
  {
    HarmlessInv(c, steps, s);
    var t := StrayHandsOver(c, s, a);
    HandOverIff(c, t, NextWith(c, s, a, false), p);
  }

  // ----- Runs in which a stray start atom loses a packet

  /** Steps of the protocol, and stray start atoms at any time. */
  ghost predicate ReachesWithStrays(c: Config, steps: seq<Step>, s: Net)
    decreases |steps|
  {
    if steps == [] then s == Start(c)
    else
      var a := steps[|steps| - 1];
      exists r :: ReachesWithStrays(c, steps[..|steps| - 1], r) && AnyStep(c, r, a, s)
  }

  predicate AnyStep(c: Config, r: Net, a: Step, s: Net) {
    Steps(c, r, a, s) || (IsStray(r, a) && s == NextWith(c, r, a, false))
  }

  lemma OneMoreStep(c: Config, steps: seq<Step>, r: Net, a: Step, s: Net)
    requires ReachesWithStrays(c, steps, r) && AnyStep(c, r, a, s)
    ensures ReachesWithStrays(c, steps + [a], s)
  {
    var more := steps + [a];
    assert more[..|more| - 1] == steps && more[|more| - 1] == a;
  }

  /** No action has been executed and no packet is on its way to anybody. */
  predicate Stranded(s: Net) {
    && s.log == [] && Packets(s.toSource) == []
    && forall i :: 0 <= i < |s.targets| ==> s.targets[i].inbox == [] && s.targets[i].actor.buffer == []
  }

  /** An attempt up to the point where the target's node has acknowledged it. */
  lemma AttemptStarts(c: Config, steps: seq<Step>, s: Net) returns (more: seq<Step>, r: Net)
    requires ReachesWithStrays(c, steps, s) && s.source.mode == HandlePackets && s.acks == {}
    ensures ReachesWithStrays(c, more, r)
    ensures more == steps + [Request(1), Prepare(|s.targets|, true), DeliverAck(|s.targets|)]
    ensures r == s.(source := s.source.(mode := WaitStart, migrateTo := 1, peer := Some(|s.targets|)),
                    targets := s.targets + [NewTarget(c, true)],
                    commands := s.commands + [CopyTo(|s.targets|)])
  {
    var i := |s.targets|;
    var m1, s1 := TargetIsAsked(c, steps, s);
    var m2, s2 := TargetAccepts(c, m1, s1, i);
    more, r := AckIsDelivered(c, m2, s2, i);
    assert r.targets == s.targets + [NewTarget(c, true)];
  }

  lemma TargetIsAsked(c: Config, steps: seq<Step>, s: Net) returns (more: seq<Step>, r: Net)
    requires ReachesWithStrays(c, steps, s) && s.source.mode == HandlePackets
    ensures ReachesWithStrays(c, more, r) && more == steps + [Request(1)]
    ensures r == s.(source := s.source.(mode := WaitPrepare, migrateTo := 1),
                    targets := s.targets + [NewTarget(c, false)])
  {
    more, r := steps + [Request(1)], AfterStartAtom(c, s, 1);
    OneMoreStep(c, steps, s, Request(1), r);
  }

  lemma TargetAccepts(c: Config, steps: seq<Step>, s: Net, i: nat) returns (more: seq<Step>, r: Net)
    requires ReachesWithStrays(c, steps, s) && i < |s.targets| && s.targets[i] == NewTarget(c, false) && s.acks == {}
    ensures ReachesWithStrays(c, more, r) && more == steps + [Prepare(i, true)]
    ensures r == s.(targets := s.targets[i := NewTarget(c, true)], acks := {i})
  {
    more, r := steps + [Prepare(i, true)], s.(targets := s.targets[i := NewTarget(c, true)], acks := {i});
    assert s.acks + {i} == {i};
    OneMoreStep(c, steps, s, Prepare(i, true), r);
  }

  lemma AckIsDelivered(c: Config, steps: seq<Step>, s: Net, i: nat) returns (more: seq<Step>, r: Net)
    requires ReachesWithStrays(c, steps, s) && Current(s, i) && s.acks == {i} && s.source.mode == WaitPrepare
    ensures ReachesWithStrays(c, more, r) && more == steps + [DeliverAck(i)]
    ensures r == s.(source := OnAck(s.source, i), commands := s.commands + [CopyTo(i)], acks := {})
  {
    more := steps + [DeliverAck(i)];
    r := s.(source := OnAck(s.source, i), commands := s.commands + [CopyTo(i)], acks := {});
    assert s.acks - {i} == {};
    OneMoreStep(c, steps, s, DeliverAck(i), r);
  }

  /** Once the flow state has left too early, the next packet is only counted by the source. */
  lemma NextPacketIsLost(c: Config, steps: seq<Step>, s: Net, p: Packet)
    returns (more: seq<Step>, r: Net)
    requires ReachesWithStrays(c, steps, s) && s.source.mode == WaitComplete && s.dest == ToSource
    requires s.toSource == [] && s.stream == [] && Stranded(s)
    ensures ReachesWithStrays(c, more, r) && r.stream == [p] && Stranded(r)
    ensures more == steps + [Arrive(p), SourceItem(-1)]
  {
    var s1 := s.(stream := [p], toSource := [Pkt(p)]);
    assert [] + [p] == [p] && [] + [Pkt(p)] == [Pkt(p)];
    OneMoreStep(c, steps, s, Arrive(p), s1);
    more, r := PacketIsCounted(c, steps + [Arrive(p)], s1, p);
  }

  lemma PacketIsCounted(c: Config, steps: seq<Step>, s: Net, p: Packet) returns (more: seq<Step>, r: Net)
    requires ReachesWithStrays(c, steps, s) && s.source.mode == WaitComplete && s.toSource == [Pkt(p)]
    ensures ReachesWithStrays(c, more, r) && more == steps + [SourceItem(-1)]
    ensures r == s.(toSource := [], source := OnPacket(c.nf, c.limits, s.source, p).0)
  {
    more, r := steps + [SourceItem(-1)], s.(toSource := [], source := OnPacket(c.nf, c.limits, s.source, p).0);
    assert s.toSource[1..] == [] && s.log + [] == s.log;
    OneMoreStep(c, steps, s, SourceItem(-1), r);
  }

  /**
   A second migration request that reaches a source waiting for the marker is taken for the marker:
   the flow state leaves too early and the next packet is processed by nobody.
   */
  lemma SecondRequestLosesPacket(c: Config, p: Packet) returns (steps: seq<Step>, s: Net)
    ensures steps == [Request(1), Prepare(0, true), DeliverAck(0), Request(1), Arrive(p), SourceItem(-1)]
    ensures ReachesWithStrays(c, steps, s)
    ensures s.stream == [p] && Stranded(s)
  {
    steps, s := AttemptStarts(c, [], Start(c));
    var r := NextWith(c, s, Request(1), true);
    OneMoreStep(c, steps, s, Request(1), r);
    steps, s := NextPacketIsLost(c, steps + [Request(1)], r, p);
  }

  /** So does the late marker of an abandoned attempt. */
  lemma StaleMarkerLosesPacket(c: Config, p: Packet) returns (steps: seq<Step>, s: Net)
    ensures steps == [Request(1), Prepare(0, true), DeliverAck(0), SwitchCommand, SourceTimeout]
                     + [Request(1), Prepare(1, true), DeliverAck(1), SwitchCommand, SourceItem(-1)]
                     + [Arrive(p), SourceItem(-1)]
    ensures ReachesWithStrays(c, steps, s)
    ensures s.stream == [p] && Stranded(s)
  {
    steps, s := AbandonedAttempt(c);
    steps, s := SecondAttempt(c, steps, s);
    steps, s := NextPacketIsLost(c, steps, s, p);
  }

  lemma SecondAttempt(c: Config, steps: seq<Step>, s: Net) returns (more: seq<Step>, r: Net)
    requires ReachesWithStrays(c, steps, s) && s.source.mode == HandlePackets && s.acks == {}
    requires s.dest == Copying(0) && s.commands == [CancelCopy(0)] && s.toSource == [Marker(0)]
    requires s.stream == [] && s.log == [] && s.targets == [NewTarget(c, true)]
    ensures ReachesWithStrays(c, more, r)
    ensures more == steps + [Request(1), Prepare(1, true), DeliverAck(1), SwitchCommand, SourceItem(-1)]
    ensures r.source.mode == WaitComplete && r.dest == ToSource && r.toSource == [] && r.stream == [] && Stranded(r)
  {
    more, r := AttemptStarts(c, steps, s);
    more, r := CopyIsCancelled(c, more, r);
    more, r := MarkerIsMisread(c, more, r);
  }

  lemma CopyIsCancelled(c: Config, steps: seq<Step>, s: Net) returns (more: seq<Step>, r: Net)
    requires ReachesWithStrays(c, steps, s) && s.dest == Copying(0) && s.commands == [CancelCopy(0), CopyTo(1)]
    ensures more == steps + [SwitchCommand]
    ensures ReachesWithStrays(c, more, r) && r == s.(dest := ToSource, commands := [CopyTo(1)])
  {
    more, r := steps + [SwitchCommand], NextWith(c, s, SwitchCommand, false);
    OneMoreStep(c, steps, s, SwitchCommand, r);
  }

  lemma MarkerIsMisread(c: Config, steps: seq<Step>, s: Net) returns (more: seq<Step>, r: Net)
    requires ReachesWithStrays(c, steps, s) && s.source.mode == WaitStart && s.toSource == [Marker(0)]
    requires |s.targets| == 2 && s.source.peer == Some(1)
    ensures more == steps + [SourceItem(-1)]
    ensures ReachesWithStrays(c, more, r)
    ensures r == s.(source := s.source.(mode := WaitComplete, counter := 0), toSource := [],
                    targets := [s.targets[0], s.targets[1].(flowState := Some(s.source.fs))])
  {
    more, r := steps + [SourceItem(-1)], NextWith(c, s, SourceItem(-1), false);
    OneMoreStep(c, steps, s, SourceItem(-1), r);
    assert r.toSource == [];
  }

  /** An attempt that times out after the switch has emitted its marker. */
  lemma AbandonedAttempt(c: Config) returns (steps: seq<Step>, s: Net)
    ensures ReachesWithStrays(c, steps, s)
    ensures steps == [Request(1), Prepare(0, true), DeliverAck(0), SwitchCommand, SourceTimeout]
    ensures s == Start(c).(dest := Copying(0), commands := [CancelCopy(0)], toSource := [Marker(0)],
                           source := Start(c).source.(peer := Some(0)), targets := [NewTarget(c, true)])
  {
    steps, s := AttemptStarts(c, [], Start(c));
    steps, s := MarkerIsSent(c, steps, s);
    steps, s := AttemptIsAbandoned(c, steps, s);
  }

  lemma AttemptIsAbandoned(c: Config, steps: seq<Step>, s: Net) returns (more: seq<Step>, r: Net)
    requires ReachesWithStrays(c, steps, s) && s.source.mode == WaitStart && |s.targets| == 1 && s.commands == []
    ensures more == steps + [SourceTimeout]
    ensures ReachesWithStrays(c, more, r)
    ensures r == s.(source := s.source.(mode := HandlePackets, migrateTo := -1), commands := [CancelCopy(0)])
  {
    more, r := steps + [SourceTimeout], SourceTimesOut(s);
    OneMoreStep(c, steps, s, SourceTimeout, r);
  }

  lemma MarkerIsSent(c: Config, steps: seq<Step>, s: Net) returns (more: seq<Step>, r: Net)
    requires ReachesWithStrays(c, steps, s) && s.commands == [CopyTo(0)] && s.toSource == []
    ensures more == steps + [SwitchCommand]
    ensures ReachesWithStrays(c, more, r)
    ensures r == s.(dest := Copying(0), commands := [], toSource := [Marker(0)])
  {
    more, r := steps + [SwitchCommand], NextWith(c, s, SwitchCommand, false);
    OneMoreStep(c, steps, s, SwitchCommand, r);
  }
}
