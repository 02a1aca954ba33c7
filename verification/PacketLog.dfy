/**
 The source after the hand-over: it counts the packets it still gets, and gives up when there are too
 many of them or the completion message does not come in time.
 */
module PacketLog {
  import opened Wrappers
  import opened NfActor
  import opened Migration

  /** What an observer notes: whether the flow was handed over, and what the source got since then. */
  datatype Watch = NotYet | Since(packets: nat, timedOut: bool, completed: bool)

  /** The source takes the marker it waits for. */
  predicate HandsOver(s: Net, a: Step) {
    && a.SourceItem? && s.source.mode == WaitStart
    && s.toSource != [] && s.targets != [] && s.toSource[0] == Marker(|s.targets| - 1)
  }

  predicate TakesPacket(s: Net, a: Step) {
    a.SourceItem? && s.toSource != [] && s.toSource[0].Pkt?
  }

  function Observe(s: Net, a: Step, w: Watch): Watch {
    match w
    case NotYet => if HandsOver(s, a) then Since(0, false, false) else NotYet
    case Since(packets, timedOut, completed) =>
      Since(if TakesPacket(s, a) then packets + 1 else packets,
            timedOut || a.SourceTimeout?,
            completed || a.DeliverComplete?)
  }

  /** What the observer has noted after a run. */
  ghost predicate Watched(c: Config, steps: seq<Step>, s: Net, w: Watch)
    decreases |steps|
  {
    if steps == [] then s == Start(c) && w == NotYet
    else
      var a := steps[|steps| - 1];
      exists r, v :: Watched(c, steps[..|steps| - 1], r, v) && Steps(c, r, a, s) && w == Observe(r, a, v)
  }

  predicate LogInv(l: Limits, source: Actor, w: Watch) {
    match w
    case NotYet => Processing(source.mode)
    case Since(packets, timedOut, completed) =>
      && source.mode in {WaitComplete, Disaster, Quit}
      && (source.mode == WaitComplete ==>
            source.counter == packets <= l.maxPacketLog && !timedOut && !completed)
      && (source.mode == Disaster ==> timedOut || packets > l.maxPacketLog)
      && (source.mode == Quit ==> completed)
  }

  /** What one step does to the source. */
  lemma StepKeepsLog(c: Config, s: Net, a: Step, w: Watch)
    requires Inv(c, s) && Enabled(s, a) && LogInv(c.limits, s.source, w)
    ensures LogInv(c.limits, Next(c, s, a).source, Observe(s, a, w))
  {
    if a.SourceItem? {
      ItemKeepsLog(c, s, a, w);
    }
  }

  lemma ItemKeepsLog(c: Config, s: Net, a: Step, w: Watch)
    requires Inv(c, s) && Enabled(s, a) && LogInv(c.limits, s.source, w) && a.SourceItem?
    ensures LogInv(c.limits, Next(c, s, a).source, Observe(s, a, w))
  {
    if s.source.mode == WaitStart {
      assert s.targets != [];
    }
  }

  // ----- Main result

  /**
   In every run, as long as the source waits for the completion message it has counted the packets it
   took since the hand-over, and they are not more than the log may hold. It is in the disaster mode
   only after a timeout or too many packets, and one of these or the completion ends the wait.
   */
  lemma {:induction false} LogIsBounded(c: Config, steps: seq<Step>, s: Net) returns (w: Watch)
    requires Reaches(c, steps, s)
    ensures Watched(c, steps, s, w)
    ensures w.NotYet? <==> Processing(s.source.mode)
    ensures w.Since? ==>
              && (s.source.mode == WaitComplete
                  <==> w.packets <= c.limits.maxPacketLog && !w.timedOut && !w.completed)
              && (s.source.mode == WaitComplete ==> s.source.counter == w.packets)
              && (s.source.mode == Disaster ==> w.timedOut || w.packets > c.limits.maxPacketLog)
              && (s.source.mode == Quit ==> w.completed)
              && s.source.mode in {WaitComplete, Disaster, Quit}
    ensures LogInv(c.limits, s.source, w)
    decreases |steps|
  {
    if steps == [] {
      w := NotYet;
    } else {
      var front, a := steps[..|steps| - 1], steps[|steps| - 1];
      var r :| Reaches(c, front, r) && Steps(c, r, a, s);
      var v := LogIsBounded(c, front, r);
      ReachableInv(c, front, r);
      w := Observe(r, a, v);
      StepKeepsLog(c, r, a, v);
    }
  }
}
