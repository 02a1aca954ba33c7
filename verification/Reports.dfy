/**
 Everything the actors send and report during a run: the requests of one attempt name one node, and
 every attempt, every success and every end of a target is reported exactly once.
 */
module Reports {
  import opened Wrappers
  import opened NfActor
  import opened Migration

  /** One message and its sender, a target or (None) the source, with the attempt it belongs to. */
  datatype Sending = Sending(from: Option<nat>, attempt: nat, what: Send)

  /** What the source sends in a step. */
  function SourceSends(c: Config, s: Net, a: Step): seq<Send>
    requires Enabled(s, a)
  {
    match a
    case Request(node) => StartAtomSends(s.source, node)
    case SourceItem(node) =>
      if s.toSource[0].Pkt? then PacketSends(c.limits, s.source)
      else if s.source.mode == WaitStart && !Current(s, s.toSource[0].attempt) then []
      else StartAtomSends(s.source, node)
    case DeliverAck(i) => if Current(s, i) then AckSends(s.source) else []
    case DeliverReject(_) => RejectSends(s.source)
    case SourceTimeout => TimeoutSends(s.source)
    case DeliverComplete(_) => CompleteSends(s.source)
    case _ => []
  }

  /** What target `i` sends in a step. */
  function TargetSends(c: Config, s: Net, a: Step): seq<Send>
    requires Enabled(s, a)
  {
    match a
    case TargetPacket(i) => PacketSends(c.limits, s.targets[i].actor)
    case TargetFlowState(i) => FlowStateSends(s.targets[i].actor)
    case TargetTimeout(i) => TimeoutSends(s.targets[i].actor)
    case _ => []
  }

  function Tag(from: Option<nat>, attempt: nat, xs: seq<Send>): (r: seq<Sending>)
    ensures |r| == |xs| && forall k :: 0 <= k < |xs| ==> r[k] == Sending(from, attempt, xs[k])
  {
    if xs == [] then [] else [Sending(from, attempt, xs[0])] + Tag(from, attempt, xs[1..])
  }

  /** The attempt a message of the source belongs to; a request for a target begins a new one. */
  function AttemptOf(s: Net, xs: seq<Send>): nat {
    if xs != [] && xs[0].PrepareToBuffer? then |s.targets| else if s.targets == [] then 0 else |s.targets| - 1
  }

  function SendsOf(c: Config, s: Net, a: Step): seq<Sending>
    requires Enabled(s, a)
  {
    Tag(None, AttemptOf(s, SourceSends(c, s, a)), SourceSends(c, s, a))
    + (if a.TargetPacket? || a.TargetFlowState? || a.TargetTimeout?
       then Tag(Some(a.attempt), a.attempt, TargetSends(c, s, a)) else [])
  }

  /** `h` is all that has been sent during the run. */
  ghost predicate Sent(c: Config, steps: seq<Step>, s: Net, h: seq<Sending>)
    decreases |steps|
  {
    if steps == [] then s == Start(c) && h == []
    else
      var a := steps[|steps| - 1];
      exists r, g :: Sent(c, steps[..|steps| - 1], r, g) && Steps(c, r, a, s) && h == g + SendsOf(c, r, a)
  }

  lemma {:induction false} SentIsRun(c: Config, steps: seq<Step>, s: Net, h: seq<Sending>)
    requires Sent(c, steps, s, h)
    ensures Reaches(c, steps, s)
    decreases |steps|
  {
    if steps != [] {
      var front, a := steps[..|steps| - 1], steps[|steps| - 1];
      var r, g :| Sent(c, front, r, g) && Steps(c, r, a, s) && h == g + SendsOf(c, r, a);
      SentIsRun(c, front, r, g);
    }
  }

  // ----- Counting

  datatype Kind = Ask | Abort | Success | Stop | HandOver

  predicate Is(x: Send, kind: Kind) {
    match kind
    case Ask => x.PrepareToBuffer?
    case Abort => x in {Notify(Rejected), Notify(NotResponding), Notify(StartLost)}
    case Success => x == Notify(Succeeded)
    case Stop => x.StopSending?
    case HandOver => x.FlowState?
  }

  function Tally(h: seq<Sending>, kind: Kind): nat {
    if h == [] then 0 else Tally(h[..|h| - 1], kind) + One(Is(h[|h| - 1].what, kind))
  }

  function One(b: bool): nat {
    if b then 1 else 0
  }

  lemma {:induction false} TallyConcat(g: seq<Sending>, h: seq<Sending>, kind: Kind)
    ensures Tally(g + h, kind) == Tally(g, kind) + Tally(h, kind)
    decreases |h|
  {
    if h == [] {
      assert g + h == g;
    } else {
      assert (g + h)[..|g + h| - 1] == g + h[..|h| - 1];
      TallyConcat(g, h[..|h| - 1], kind);
    }
  }

  /** How often a handler sends one kind of message; no handler sends more than two. */
  function Among(xs: seq<Send>, kind: Kind): nat {
    (if |xs| > 0 then One(Is(xs[0], kind)) else 0) + (if |xs| > 1 then One(Is(xs[1], kind)) else 0)
  }

  lemma TallyOfTag(from: Option<nat>, attempt: nat, xs: seq<Send>, kind: Kind)
    requires |xs| <= 2
    ensures Tally(Tag(from, attempt, xs), kind) == Among(xs, kind)
  {
    var h := Tag(from, attempt, xs);
    if |xs| == 1 {
      TallyOfOne(h[0], kind);
      assert h == [h[0]];
    } else if |xs| == 2 {
      TallyOfOne(h[0], kind);
      TallyOfOne(h[1], kind);
      TallyConcat([h[0]], [h[1]], kind);
      assert h == [h[0]] + [h[1]];
    }
  }

  lemma TallyOfOne(x: Sending, kind: Kind)
    ensures Tally([x], kind) == One(Is(x.what, kind))
  {
    assert [x][..0] == [];
  }

  // ----- What has been sent follows from where the source stands

  /** How many messages of a kind have been sent when the source has got to `s`. */
  function Expected(s: Net, kind: Kind): int {
    match kind
    case Ask => |s.targets|
    case Abort => |s.targets| - One(s.source.mode != HandlePackets)
    case Success => One(s.source.mode == Quit)
    case Stop => One(s.source.mode == Quit)
    case HandOver => One(!Processing(s.source.mode))
  }

  /** The step `a` changes what is expected by what the source sends in it. */
  predicate CountsStep(c: Config, s: Net, a: Step, kind: Kind)
    requires Enabled(s, a)
  {
    && |SourceSends(c, s, a)| <= 2
    && Expected(Next(c, s, a), kind) == Expected(s, kind) + Among(SourceSends(c, s, a), kind)
  }

  lemma SourceStepCounts(c: Config, s: Net, a: Step, kind: Kind)
    requires Inv(c, s) && Enabled(s, a)
    ensures CountsStep(c, s, a, kind)
  {
    match a
    case SourceItem(node) => ItemCounts(c, s, node, kind);
    case Request(node) => StartAtomCounts(c, s, s, node, kind);
    case SourceTimeout => TimeoutCounts(c, s, kind);
    case DeliverAck(_) => ReplyCounts(c, s, a, kind);
    case DeliverReject(_) => ReplyCounts(c, s, a, kind);
    case DeliverComplete(_) => ReplyCounts(c, s, a, kind);
    case _ => QuietStep(c, s, a, kind);
  }

  lemma StartAtomCounts(c: Config, s: Net, t: Net, node: int, kind: Kind)
    requires Inv(c, s) && t.source == s.source && t.targets == s.targets
    ensures var xs := StartAtomSends(s.source, node);
            |xs| <= 2 && Expected(AfterStartAtom(c, t, node), kind) == Expected(s, kind) + Among(xs, kind)
  {
  }

  lemma ItemCounts(c: Config, s: Net, node: int, kind: Kind)
    requires Inv(c, s) && s.toSource != []
    ensures CountsStep(c, s, SourceItem(node), kind)
  {
    if s.toSource[0].Pkt? {
      PacketCounts(c, s, node, kind);
    } else {
      StartAtomCounts(c, s, s.(toSource := s.toSource[1..]), node, kind);
    }
  }

  lemma PacketCounts(c: Config, s: Net, node: int, kind: Kind)
    requires Inv(c, s) && s.toSource != [] && s.toSource[0].Pkt?
    ensures CountsStep(c, s, SourceItem(node), kind)
  {
  }

  lemma TimeoutCounts(c: Config, s: Net, kind: Kind)
    requires Inv(c, s)
    ensures CountsStep(c, s, SourceTimeout, kind)
  {
  }

  lemma ReplyCounts(c: Config, s: Net, a: Step, kind: Kind)
    requires Inv(c, s) && Enabled(s, a) && (a.DeliverAck? || a.DeliverReject? || a.DeliverComplete?)
    ensures CountsStep(c, s, a, kind)
  {
  }

  lemma QuietStep(c: Config, s: Net, a: Step, kind: Kind)
    requires Enabled(s, a) && SourceSends(c, s, a) == [] && Next(c, s, a).source == s.source
    requires |Next(c, s, a).targets| == |s.targets|
    ensures CountsStep(c, s, a, kind)
  {
  }

  lemma TargetStepCounts(c: Config, s: Net, a: Step, kind: Kind)
    requires Inv(c, s) && Enabled(s, a)
    requires a.TargetPacket? || a.TargetFlowState? || a.TargetTimeout?
    ensures |TargetSends(c, s, a)| <= 2 && Among(TargetSends(c, s, a), kind) == 0
  {
    OthersWait(c, s, a.attempt);
  }

  lemma StepCounts(c: Config, s: Net, a: Step, kind: Kind)
    requires Inv(c, s) && Enabled(s, a)
    ensures Expected(Next(c, s, a), kind) == Expected(s, kind) + Tally(SendsOf(c, s, a), kind)
  {
    var xs := SourceSends(c, s, a);
    var mine := Tag(None, AttemptOf(s, xs), xs);
    SourceStepCounts(c, s, a, kind);
    TallyOfTag(None, AttemptOf(s, xs), xs, kind);
    if a.TargetPacket? || a.TargetFlowState? || a.TargetTimeout? {
      var ys := TargetSends(c, s, a);
      TargetStepCounts(c, s, a, kind);
      TallyOfTag(Some(a.attempt), a.attempt, ys, kind);
      TallyConcat(mine, Tag(Some(a.attempt), a.attempt, ys), kind);
    } else {
      assert mine + [] == mine;
    }
  }

  /**
   In every run one request for a target has been sent for each attempt; every attempt but the one under
   way has been reported as rejected, not responding or lost; the flow state has been sent once after the
   hand-over, and the success reported and the switch told to stop once when the source has quit.
   */
  lemma {:induction false} EverythingIsReportedOnce(c: Config, steps: seq<Step>, s: Net, h: seq<Sending>, kind: Kind)
    requires Sent(c, steps, s, h)
    ensures Tally(h, kind) == Expected(s, kind)
    decreases |steps|
  {
    if steps != [] {
      var front, a := steps[..|steps| - 1], steps[|steps| - 1];
      var r, g :| Sent(c, front, r, g) && Steps(c, r, a, s) && h == g + SendsOf(c, r, a);
      EverythingIsReportedOnce(c, front, r, g, kind);
      SentIsRun(c, front, r, g);
      ReachableInv(c, front, r);
      StepCounts(c, r, a, kind);
      TallyConcat(g, SendsOf(c, r, a), kind);
    }
  }

  // ----- Nodes and peers

  function NodeOf(x: Send): Option<int> {
    match x
    case PrepareToBuffer(node) => Some(node)
    case CopyFlow(node) => Some(node)
    case StopCopying(node) => Some(node)
    case _ => None
  }

  /** A message of an attempt names the node asked for that attempt, and the flow state its target. */
  predicate Fits(x: Sending, nodes: seq<int>) {
    && (NodeOf(x.what).Some? ==> x.attempt < |nodes| && NodeOf(x.what).value == nodes[x.attempt])
    && (x.what.FlowState? ==> x.what.peer == Some(x.attempt))
  }

  predicate NodesInv(s: Net, h: seq<Sending>, nodes: seq<int>) {
    && |nodes| == |s.targets|
    && (forall x :: x in h ==> Fits(x, nodes))
    && (s.source.mode != HandlePackets ==> nodes != [] && s.source.migrateTo == nodes[|nodes| - 1])
    && (forall i :: 0 <= i < |nodes| ==> nodes[i] != -1)
  }

  function NodesAfter(c: Config, s: Net, a: Step, nodes: seq<int>): seq<int>
    requires Enabled(s, a)
  {
    var xs := SourceSends(c, s, a);
    if xs != [] && xs[0].PrepareToBuffer? then nodes + [xs[0].node] else nodes
  }

  /** What is sent in a step fits, and the source still has the node of its attempt in mind. */
  predicate NodesStep(c: Config, s: Net, a: Step, nodes: seq<int>)
    requires Enabled(s, a)
  {
    var xs, t, after := SourceSends(c, s, a), Next(c, s, a), NodesAfter(c, s, a, nodes);
    && |after| == |t.targets|
    && (forall k :: 0 <= k < |xs| ==> Fits(Sending(None, AttemptOf(s, xs), xs[k]), after))
    && (t.source.mode != HandlePackets ==> after != [] && t.source.migrateTo == after[|after| - 1])
    && (forall i :: 0 <= i < |after| ==> after[i] != -1)
  }

  lemma SourceStepNodes(c: Config, s: Net, h: seq<Sending>, a: Step, nodes: seq<int>)
    requires Inv(c, s) && Enabled(s, a) && NodesInv(s, h, nodes)
    ensures NodesStep(c, s, a, nodes)
  {
    if a.SourceItem? {
      ItemNodes(c, s, h, a.node, nodes);
    } else if a.Request? {
      RequestNodes(c, s, h, a.node, nodes);
    } else {
      OtherNodes(c, s, h, a, nodes);
    }
  }

  lemma ItemNodes(c: Config, s: Net, h: seq<Sending>, node: int, nodes: seq<int>)
    requires Inv(c, s) && s.toSource != [] && NodesInv(s, h, nodes)
    ensures NodesStep(c, s, SourceItem(node), nodes)
  {
  }

  lemma RequestNodes(c: Config, s: Net, h: seq<Sending>, node: int, nodes: seq<int>)
    requires Inv(c, s) && s.source.mode != WaitStart && NodesInv(s, h, nodes)
    ensures NodesStep(c, s, Request(node), nodes)
  {
  }

  lemma OtherNodes(c: Config, s: Net, h: seq<Sending>, a: Step, nodes: seq<int>)
    requires Inv(c, s) && Enabled(s, a) && NodesInv(s, h, nodes) && !a.SourceItem? && !a.Request?
    ensures NodesStep(c, s, a, nodes)
  {
    if a.SourceTimeout? {
      TimeoutNodes(c, s, h, nodes);
    } else if a.DeliverAck? {
      AckNodes(c, s, h, a.attempt, nodes);
    } else if a.DeliverReject? || a.DeliverComplete? {
      ReplyNodes(c, s, h, a, nodes);
    } else {
      QuietNodes(c, s, h, a, nodes);
    }
  }

  lemma TimeoutNodes(c: Config, s: Net, h: seq<Sending>, nodes: seq<int>)
    requires Inv(c, s) && NodesInv(s, h, nodes)
    ensures NodesStep(c, s, SourceTimeout, nodes)
  {
  }

  lemma AckNodes(c: Config, s: Net, h: seq<Sending>, i: nat, nodes: seq<int>)
    requires Inv(c, s) && i in s.acks && NodesInv(s, h, nodes)
    ensures NodesStep(c, s, DeliverAck(i), nodes)
  {
  }

  lemma ReplyNodes(c: Config, s: Net, h: seq<Sending>, a: Step, nodes: seq<int>)
    requires Enabled(s, a) && NodesInv(s, h, nodes) && (a.DeliverReject? || a.DeliverComplete?)
    ensures NodesStep(c, s, a, nodes)
  {
  }

  lemma QuietNodes(c: Config, s: Net, h: seq<Sending>, a: Step, nodes: seq<int>)
    requires Enabled(s, a) && NodesInv(s, h, nodes) && SourceSends(c, s, a) == []
    requires Next(c, s, a).source == s.source && |Next(c, s, a).targets| == |s.targets|
    ensures NodesStep(c, s, a, nodes)
  {
  }

  /** What targets send names no node. */
  lemma TargetStepNodes(c: Config, s: Net, a: Step, nodes: seq<int>)
    requires Inv(c, s) && Enabled(s, a)
    requires a.TargetPacket? || a.TargetFlowState? || a.TargetTimeout?
    ensures var xs := TargetSends(c, s, a);
            forall k :: 0 <= k < |xs| ==> Fits(Sending(Some(a.attempt), a.attempt, xs[k]), nodes)
  {
    OthersWait(c, s, a.attempt);
  }

  lemma LongerFits(x: Sending, nodes: seq<int>, after: seq<int>)
    requires Fits(x, nodes) && |nodes| <= |after| && after[..|nodes|] == nodes
    ensures Fits(x, after)
  {
    assert x.attempt < |nodes| ==> after[x.attempt] == after[..|nodes|][x.attempt];
  }

  lemma StepKeepsNodes(c: Config, s: Net, g: seq<Sending>, a: Step, nodes: seq<int>)
    requires Inv(c, s) && Enabled(s, a) && NodesInv(s, g, nodes)
    ensures NodesInv(Next(c, s, a), g + SendsOf(c, s, a), NodesAfter(c, s, a, nodes))
  {
    var after := NodesAfter(c, s, a, nodes);
    SourceStepNodes(c, s, g, a, nodes);
    if a.TargetPacket? || a.TargetFlowState? || a.TargetTimeout? {
      TargetStepNodes(c, s, a, after);
    }
    forall x | x in g + SendsOf(c, s, a) ensures Fits(x, after) {
      if x in g { LongerFits(x, nodes, after); }
    }
  }

  /**
   In every run all that is sent for one attempt names the same node: the one asked for it, copied to,
   and cancelled; and the flow state goes to the target of its attempt.
   */
  lemma {:induction false} OneNodePerAttempt(c: Config, steps: seq<Step>, s: Net, h: seq<Sending>)
    returns (nodes: seq<int>)
    requires Sent(c, steps, s, h)
    ensures NodesInv(s, h, nodes)
    decreases |steps|
  {
    if steps == [] {
      nodes := [];
    } else {
      var front, a := steps[..|steps| - 1], steps[|steps| - 1];
      var r, g :| Sent(c, front, r, g) && Steps(c, r, a, s) && h == g + SendsOf(c, r, a);
      var before := OneNodePerAttempt(c, front, r, g);
      SentIsRun(c, front, r, g);
      ReachableInv(c, front, r);
      StepKeepsNodes(c, r, g, a, before);
      nodes := NodesAfter(c, r, a, before);
    }
  }

  // ----- Targets

  predicate ReportedEnd(h: seq<Sending>, i: nat) {
    Sending(Some(i), i, Notify(Overflow)) in h || Sending(Some(i), i, Notify(TransferFailed)) in h
  }

  predicate ReportedTakeOver(h: seq<Sending>, i: nat) {
    Sending(Some(i), i, MigrationComplete) in h
  }

  predicate TargetReports(s: Net, h: seq<Sending>, i: nat) {
    && (ReportedEnd(h, i) <==> ModeOf(s, i) == Quit)
    && (ReportedTakeOver(h, i) <==> ModeOf(s, i) == HandlePackets)
  }

  /** The mode of target `i` before and after a step, and what it reports in between. */
  predicate Reports(m: Mode, n: Mode, h: seq<Sending>, i: nat) {
    && (n == Quit <==> m == Quit || ReportedEnd(h, i))
    && (n == HandlePackets <==> m == HandlePackets || ReportedTakeOver(h, i))
  }

  predicate MayHaveMode(s: Net, i: nat) {
    i < |s.targets| ==> s.targets[i].actor.mode in {WaitForMigration, HandlePackets, Quit}
  }

  function ModeOf(s: Net, i: nat): Mode {
    if i < |s.targets| then s.targets[i].actor.mode else WaitForMigration
  }

  lemma TargetStepReports(c: Config, s: Net, a: Step, i: nat)
    requires Enabled(s, a) && (a.TargetPacket? || a.TargetFlowState? || a.TargetTimeout?) && MayHaveMode(s, i)
    ensures Reports(ModeOf(s, i), ModeOf(Next(c, s, a), i), SendsOf(c, s, a), i)
  {
    var xs := TargetSends(c, s, a);
    assert SendsOf(c, s, a) == Tag(Some(a.attempt), a.attempt, xs);
    if a.attempt != i {
      assert ModeOf(Next(c, s, a), i) == ModeOf(s, i);
    } else {
      TaggedReports(i, xs, SendsOf(c, s, a));
      OwnStepReports(c, s, a, i);
    }
  }

  lemma TaggedReports(i: nat, xs: seq<Send>, h: seq<Sending>)
    requires h == Tag(Some(i), i, xs)
    ensures ReportedEnd(h, i) <==> Notify(Overflow) in xs || Notify(TransferFailed) in xs
    ensures ReportedTakeOver(h, i) <==> MigrationComplete in xs
  {
    forall x | x in xs ensures Sending(Some(i), i, x) in h {
      var k :| 0 <= k < |xs| && xs[k] == x;
      assert h[k] in h;
    }
  }

  lemma OwnStepReports(c: Config, s: Net, a: Step, i: nat)
    requires Enabled(s, a) && (a.TargetPacket? || a.TargetFlowState? || a.TargetTimeout?) && MayHaveMode(s, i)
    requires a.attempt == i
    ensures var xs, m, n := TargetSends(c, s, a), ModeOf(s, i), ModeOf(Next(c, s, a), i);
            && (n == Quit <==> m == Quit || Notify(Overflow) in xs || Notify(TransferFailed) in xs)
            && (n == HandlePackets <==> m == HandlePackets || MigrationComplete in xs)
  {
  }

  lemma SourceStepReports(c: Config, s: Net, a: Step, i: nat)
    requires Enabled(s, a) && !a.TargetPacket? && !a.TargetFlowState? && !a.TargetTimeout?
    ensures Reports(ModeOf(s, i), ModeOf(Next(c, s, a), i), SendsOf(c, s, a), i)
  {
    var xs := SourceSends(c, s, a);
    assert SendsOf(c, s, a) == Tag(None, AttemptOf(s, xs), xs);
    SourceKeepsModes(c, s, a, i);
  }

  lemma SourceKeepsModes(c: Config, s: Net, a: Step, i: nat)
    requires Enabled(s, a) && !a.TargetPacket? && !a.TargetFlowState? && !a.TargetTimeout?
    ensures ModeOf(Next(c, s, a), i) == ModeOf(s, i)
  {
  }

  lemma StepReports(c: Config, s: Net, a: Step, i: nat)
    requires Inv(c, s) && Enabled(s, a)
    ensures Reports(ModeOf(s, i), ModeOf(Next(c, s, a), i), SendsOf(c, s, a), i)
  {
    if i < |s.targets| { OthersWait(c, s, i); }
    if a.TargetPacket? || a.TargetFlowState? || a.TargetTimeout? {
      TargetStepReports(c, s, a, i);
    } else {
      SourceStepReports(c, s, a, i);
    }
  }

  lemma ReportsAdd(g: seq<Sending>, h: seq<Sending>, i: nat)
    ensures ReportedEnd(g + h, i) <==> ReportedEnd(g, i) || ReportedEnd(h, i)
    ensures ReportedTakeOver(g + h, i) <==> ReportedTakeOver(g, i) || ReportedTakeOver(h, i)
  {
  }

  /** In every run a target has reported its end exactly when it has quit, and that it took over when it did. */
  lemma {:induction false} TargetsReport(c: Config, steps: seq<Step>, s: Net, h: seq<Sending>, i: nat)
    requires Sent(c, steps, s, h)
    ensures TargetReports(s, h, i)
    decreases |steps|
  {
    if steps != [] {
      var front, a := steps[..|steps| - 1], steps[|steps| - 1];
      var r, g :| Sent(c, front, r, g) && Steps(c, r, a, s) && h == g + SendsOf(c, r, a);
      TargetsReport(c, front, r, g, i);
      SentIsRun(c, front, r, g);
      ReachableInv(c, front, r);
      StepReports(c, r, a, i);
      ReportsAdd(g, SendsOf(c, r, a), i);
    }
  }

  // ----- Reasons

  /** An abandoned attempt is reported with its reason, and the switch told to stop copying if it copies. */
  lemma AbortsSayWhy(c: Config, steps: seq<Step>, s: Net, a: Step)
    requires Reaches(c, steps, s) && Enabled(s, a)
    requires s.source.mode in {WaitPrepare, WaitStart} && Next(c, s, a).source.mode == HandlePackets
    ensures (a.DeliverReject? && s.source.mode == WaitPrepare) || a.SourceTimeout?
    ensures SourceSends(c, s, a)
            == if a.DeliverReject? then [Notify(Rejected)]
               else if s.source.mode == WaitPrepare then [Notify(NotResponding)]
               else [StopCopying(s.source.migrateTo), Notify(StartLost)]
  {
    ReachableInv(c, steps, s);
  }

  /** A target that quits says why: too many packets, or no flow state in time. */
  lemma EndsSayWhy(c: Config, steps: seq<Step>, s: Net, a: Step, i: nat)
    requires Reaches(c, steps, s) && Enabled(s, a) && ModeOf(s, i) != Quit && ModeOf(Next(c, s, a), i) == Quit
    ensures (a == TargetPacket(i) && TargetSends(c, s, a) == [Notify(Overflow)])
            || (a == TargetTimeout(i) && TargetSends(c, s, a) == [Notify(TransferFailed)])
  {
    ReachableInv(c, steps, s);
    if i < |s.targets| { OthersWait(c, s, i); }
    EndHasCause(c, s, a, i);
  }

  lemma EndHasCause(c: Config, s: Net, a: Step, i: nat)
    requires Enabled(s, a) && MayHaveMode(s, i) && ModeOf(s, i) != Quit && ModeOf(Next(c, s, a), i) == Quit
    ensures (a == TargetPacket(i) && TargetSends(c, s, a) == [Notify(Overflow)])
            || (a == TargetTimeout(i) && TargetSends(c, s, a) == [Notify(TransferFailed)])
  {
  }
}
