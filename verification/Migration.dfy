/**
 The migration of a flow between two network-function actors while packets keep arriving at the
 switch.  Any number of attempts may be abandoned before one succeeds; attempt `i` has target `i`.
 The channels are first-in first-out; acks and start markers of abandoned attempts are discarded.
 */
module Migration {
  import opened Wrappers
  import opened NfActor

  datatype Item = Pkt(p: Packet) | Marker(attempt: nat)

  /** What the source asks of the switch. */
  datatype Command = CopyTo(attempt: nat) | CancelCopy(attempt: nat) | CancelSend(attempt: nat)

  datatype Dest = ToSource | Copying(attempt: nat) | ToTarget(attempt: nat)

  /** A migration target with the packets and the flow state on their way to it. */
  datatype Target = Target(created: bool, actor: Actor, inbox: seq<Packet>, flowState: Option<Flow>)

  datatype Net = Net(
    stream: seq<Packet>,       // every packet that has arrived at the switch
    dest: Dest,
    commands: seq<Command>,    // from the source to the switch
    toSource: seq<Item>,       // from the switch to the source
    source: Actor,
    targets: seq<Target>,      // one for each attempt, the last one being current
    acks: set<nat>,
    rejects: set<nat>,
    completions: set<nat>,
    log: seq<Action>)          // every action executed, by any actor

  datatype Step =
    | Arrive(p: Packet)
    | SwitchCommand
    | Request(node: int)
    | Prepare(attempt: nat, accept: bool)
    | DeliverAck(attempt: nat)
    | DeliverReject(attempt: nat)
    | SourceTimeout
    | SourceItem(node: int)
    | TargetPacket(attempt: nat)
    | TargetFlowState(attempt: nat)
    | TargetTimeout(attempt: nat)
    | DeliverComplete(attempt: nat)

  datatype Config = Config(nf: Handler, limits: Limits, fs: Flow, sourceNode: int)

  function Start(c: Config): Net {
    Net([], ToSource, [], [], Actor(HandlePackets, c.fs, -1, None, 0, []), [], {}, {}, {}, [])
  }

  function NewTarget(c: Config, created: bool): Target {
    Target(created, Actor(WaitForMigration, c.fs, c.sourceNode, None, 0, []), [], None)
  }

  predicate Current(s: Net, attempt: nat) {
    attempt == |s.targets| - 1
  }

  predicate Enabled(s: Net, a: Step) {
    match a
    case Arrive(_) => true
    case SwitchCommand => s.commands != []
    case Request(_) => s.source.mode != WaitStart  // the runtime asks no actor that is waiting for the marker
    case Prepare(i, _) => i < |s.targets| && !s.targets[i].created
    case DeliverAck(i) => i in s.acks
    case DeliverReject(i) => i in s.rejects
    case SourceTimeout => true
    case SourceItem(_) => s.toSource != []
    case TargetPacket(i) => i < |s.targets| && s.targets[i].created && s.targets[i].inbox != []
    case TargetFlowState(i) => i < |s.targets| && s.targets[i].created && s.targets[i].flowState.Some?
    case TargetTimeout(i) => i < |s.targets| && s.targets[i].created
    case DeliverComplete(i) => i in s.completions
  }

  function WithTarget(s: Net, i: nat, t: Target): Net
    requires i < |s.targets|
  {
    s.(targets := s.targets[i := t])
  }

  /** The source has handled a start atom: it asks a new target, or hands its flow state over. */
  function AfterStartAtom(c: Config, s: Net, node: int): Net {
    var source := OnStartAtom(s.source, node);
    var r := s.(source := source);
    if s.source.mode == HandlePackets && source.mode == WaitPrepare then
      r.(targets := s.targets + [NewTarget(c, false)])
    else if s.source.mode == WaitStart && s.source.peer.Some? && s.source.peer.value < |s.targets| then
      var i := s.source.peer.value;
      WithTarget(r, i, s.targets[i].(flowState := Some(s.source.fs)))
    else r
  }

  function SwitchForward(s: Net, p: Packet): Net {
    var r := s.(stream := s.stream + [p]);
    match s.dest
    case ToSource => r.(toSource := s.toSource + [Pkt(p)])
    case Copying(i) =>
      var q := r.(toSource := s.toSource + [Pkt(p)]);
      if i < |s.targets| then WithTarget(q, i, s.targets[i].(inbox := s.targets[i].inbox + [p])) else q
    case ToTarget(i) =>
      if i < |s.targets| then WithTarget(r, i, s.targets[i].(inbox := s.targets[i].inbox + [p])) else r
  }

  function SwitchObey(s: Net): Net
    requires s.commands != []
  {
    var r := s.(commands := s.commands[1..]);
    match s.commands[0]
    case CopyTo(i) => r.(dest := Copying(i), toSource := s.toSource + [Marker(i)])
    case CancelCopy(i) => if s.dest == Copying(i) then r.(dest := ToSource) else r
    case CancelSend(i) => if s.dest == Copying(i) then r.(dest := ToTarget(i)) else r
  }

  /** `filtered` says whether markers of abandoned attempts are kept from a waiting source. */
  function SourceTakes(c: Config, s: Net, node: int, filtered: bool): Net
    requires s.toSource != []
  {
    var r := s.(toSource := s.toSource[1..]);
    match s.toSource[0]
    case Pkt(p) =>
      var (source, actions) := OnPacket(c.nf, c.limits, s.source, p);
      r.(source := source, log := s.log + actions)
    case Marker(i) =>
      if filtered && s.source.mode == WaitStart && !Current(s, i) then r else AfterStartAtom(c, r, node)
  }

  function SourceTimesOut(s: Net): Net {
    var r := s.(source := OnTimeout(s.source));
    if s.source.mode == WaitStart && s.targets != []
    then r.(commands := s.commands + [CancelCopy(|s.targets| - 1)])
    else r
  }

  function TargetTakesPacket(c: Config, s: Net, i: nat): Net
    requires i < |s.targets| && s.targets[i].inbox != []
  {
    var t := s.targets[i];
    var (actor, actions) := OnPacket(c.nf, c.limits, t.actor, t.inbox[0]);
    WithTarget(s, i, t.(actor := actor, inbox := t.inbox[1..])).(log := s.log + actions)
  }

  function TargetTakesFlowState(c: Config, s: Net, i: nat): Net
    requires i < |s.targets| && s.targets[i].flowState.Some?
  {
    var t := s.targets[i];
    var (actor, actions) := OnFlowState(c.nf, t.actor, t.flowState.value);
    WithTarget(s, i, t.(actor := actor, flowState := None))
    .(log := s.log + actions,
      completions := if t.actor.mode == WaitForMigration then s.completions + {i} else s.completions)
  }

  function NextWith(c: Config, s: Net, a: Step, filtered: bool): Net
    requires a.Request? || Enabled(s, a)
  {
    match a
    case Arrive(p) => SwitchForward(s, p)
    case SwitchCommand => SwitchObey(s)
    case Request(node) => AfterStartAtom(c, s, node)
    case Prepare(i, accept) =>
      if accept then WithTarget(s, i, s.targets[i].(created := true)).(acks := s.acks + {i})
      else s.(rejects := s.rejects + {i})
    case DeliverAck(i) =>
      var r := s.(acks := s.acks - {i});
      if Current(s, i) && s.source.mode == WaitPrepare
      then r.(source := OnAck(s.source, i), commands := s.commands + [CopyTo(i)])
      else r
    case DeliverReject(i) =>
      s.(rejects := s.rejects - {i}, source := OnReject(s.source))
    case SourceTimeout => SourceTimesOut(s)
    case SourceItem(node) => SourceTakes(c, s, node, filtered)
    case TargetPacket(i) => TargetTakesPacket(c, s, i)
    case TargetFlowState(i) => TargetTakesFlowState(c, s, i)
    case TargetTimeout(i) => WithTarget(s, i, s.targets[i].(actor := OnTimeout(s.targets[i].actor)))
    case DeliverComplete(i) =>
      var r := s.(completions := s.completions - {i}, source := OnComplete(s.source));
      if s.source.mode == WaitComplete && s.targets != []
      then r.(commands := s.commands + [CancelSend(|s.targets| - 1)]) else r
  }

  function Next(c: Config, s: Net, a: Step): Net
    requires Enabled(s, a)
  {
    NextWith(c, s, a, true)
  }

  // ----- The invariant

  function Packets(items: seq<Item>): seq<Packet> {
    if items == [] then []
    else Packets(items[..|items| - 1]) + (if items[|items| - 1].Pkt? then [items[|items| - 1].p] else [])
  }

  lemma {:induction false} PacketsConcat(xs: seq<Item>, ys: seq<Item>)
    ensures Packets(xs + ys) == Packets(xs) + Packets(ys)
  {
    if ys == [] {
      assert xs + ys == xs;
    } else {
      PacketsConcat(xs, ys[..|ys| - 1]);
      assert (xs + ys)[..|xs + ys| - 1] == xs + ys[..|ys| - 1];
    }
  }

  /** The executed actions are those of one actor that has processed a prefix of the stream. */
  predicate InOrder(c: Config, s: Net) {
    |s.log| <= |s.stream| && s.log == Actions(c.nf, c.fs, s.stream[..|s.log|])
  }

  /** The flow state that belongs to the actions executed so far. */
  function Reference(c: Config, s: Net): Flow
    requires |s.log| <= |s.stream|
  {
    After(c.nf, c.fs, s.stream[..|s.log|])
  }

  /** A target that never received the flow state. */
  predicate Waiting(t: Target) {
    t.flowState.None? && t.actor.mode in {WaitForMigration, Quit}
  }

  predicate Fresh(s: Net, i: nat) {
    && i < |s.targets|
    && s.dest != Copying(i) && CopyTo(i) !in s.commands && Marker(i) !in s.toSource
    && s.targets[i].inbox == [] && s.targets[i].actor.buffer == []
  }

  /** The switch copies to target `i`, and what follows the marker is what the target got. */
  ghost predicate Marked(s: Net, i: nat) {
    && i < |s.targets| && s.dest == Copying(i) && s.commands == []
    && exists before, after :: MarkerSplits(s, i, before, after)
  }

  predicate MarkerSplits(s: Net, i: nat, before: seq<Item>, after: seq<Item>)
    requires i < |s.targets|
  {
    && s.toSource == before + [Marker(i)] + after
    && Marker(i) !in before
    && (s.targets[i].actor.mode == WaitForMigration ==>
          s.targets[i].actor.buffer + s.targets[i].inbox == Packets(after))
  }

  predicate Ordered(s: Net, i: nat) {
    && s.commands != [] && s.commands[|s.commands| - 1] == CopyTo(i)
    && CopyTo(i) !in s.commands[..|s.commands| - 1]
    && i < |s.targets|
    && s.dest != Copying(i) && Marker(i) !in s.toSource
    && s.targets[i].inbox == [] && s.targets[i].actor.buffer == []
  }

  /** Nothing mentions an attempt that has not been made. */
  ghost predicate Bounded(s: Net) {
    && (s.dest.Copying? || s.dest.ToTarget? ==> s.dest.attempt < |s.targets|)
    && (forall x :: x in s.commands ==> x.attempt < |s.targets|)
    && (forall x :: x in s.toSource && x.Marker? ==> x.attempt < |s.targets|)
    && (forall i :: i in s.acks || i in s.rejects || i in s.completions ==> i < |s.targets|)
  }

  /** The source is where one actor would be, and what it has not processed is on its way to it. */
  predicate SourceFlow(c: Config, s: Net) {
    && InOrder(c, s)
    && s.source.fs == Reference(c, s)
    && Packets(s.toSource) == s.stream[|s.log|..]
  }

  ghost predicate SourceControl(s: Net) {
    && !s.dest.ToTarget? && (forall x :: x in s.commands ==> !x.CancelSend?)
    && s.completions == {}
    && (forall i :: 0 <= i < |s.targets| ==> Waiting(s.targets[i]))
    && (s.source.mode == WaitPrepare ==> |s.targets| > 0 && Fresh(s, |s.targets| - 1))
    && (s.source.mode == WaitStart ==>
          && s.source.peer == Some(|s.targets| - 1)
          && |s.targets| > 0 && (Ordered(s, |s.targets| - 1) || Marked(s, |s.targets| - 1)))
  }

  /** The source still processes the flow. */
  ghost predicate SourceOwns(c: Config, s: Net) {
    SourceFlow(c, s) && SourceControl(s)
  }

  /** Target `i` is where one actor would be, or will be once it gets the flow state, or it has quit. */
  predicate TargetFlow(c: Config, s: Net, i: nat)
    requires i < |s.targets|
  {
    var t := s.targets[i];
    && InOrder(c, s)
    && match t.actor.mode
       case WaitForMigration =>
         t.flowState == Some(Reference(c, s)) && t.actor.buffer + t.inbox == s.stream[|s.log|..]
       case HandlePackets =>
         t.flowState.None? && t.actor.fs == Reference(c, s) && t.inbox == s.stream[|s.log|..]
       case Quit => true
       case _ => false
  }

  ghost predicate TargetControl(s: Net, i: nat) {
    && (s.dest == Copying(i) || s.dest == ToTarget(i))
    && (forall x :: x in s.commands ==> x == CancelSend(i))
    && s.completions <= {i}
    && (forall k :: 0 <= k < |s.targets| && k != i ==> Waiting(s.targets[k]))
  }

  /** The flow state has left the source for target `i`. */
  ghost predicate TargetOwns(c: Config, s: Net, i: nat)
    requires i < |s.targets|
  {
    TargetFlow(c, s, i) && TargetControl(s, i)
  }

  ghost predicate Inv(c: Config, s: Net) {
    && Bounded(s)
    && s.source.mode != WaitForMigration
    && (s.source.mode == HandlePackets <==> s.source.migrateTo == -1)
    && (if Processing(s.source.mode) then SourceOwns(c, s)
        else |s.targets| > 0 && TargetOwns(c, s, |s.targets| - 1))
  }

  lemma StartInv(c: Config)
    ensures Inv(c, Start(c))
  {
  }

  // ----- Steps while the source owns the flow

  lemma ArriveAtSource(c: Config, s: Net, p: Packet)
    requires Inv(c, s) && Processing(s.source.mode)
    ensures Inv(c, SwitchForward(s, p))
  {
    ArriveKeepsFlow(c, s, p);
    ArriveKeepsControl(s, p);
  }

  lemma ArriveKeepsFlow(c: Config, s: Net, p: Packet)
    requires SourceFlow(c, s) && !s.dest.ToTarget?
    ensures SourceFlow(c, SwitchForward(s, p))
  {
    var r := SwitchForward(s, p);
    var n := |s.log|;
    assert r.toSource == s.toSource + [Pkt(p)] && r.log == s.log && r.source == s.source;
    assert r.stream == s.stream + [p];
    assert r.stream[..n] == s.stream[..n] && r.stream[n..] == s.stream[n..] + [p];
    PacketsAppend(s.toSource, Pkt(p));
  }

  lemma PacketsAppend(items: seq<Item>, x: Item)
    ensures Packets(items + [x]) == Packets(items) + (if x.Pkt? then [x.p] else [])
  {
    assert (items + [x])[..|items|] == items;
  }

  lemma ArriveKeepsControl(s: Net, p: Packet)
    requires Bounded(s) && SourceControl(s)
    ensures Bounded(SwitchForward(s, p)) && SourceControl(SwitchForward(s, p))
  {
    var r := SwitchForward(s, p);
    assert |r.targets| == |s.targets| && r.toSource == s.toSource + [Pkt(p)];
    assert forall k :: 0 <= k < |s.targets| && s.dest != Copying(k) ==> r.targets[k] == s.targets[k];
    if s.source.mode == WaitStart && Marked(s, |s.targets| - 1) {
      ArriveKeepsMarked(s, p, |s.targets| - 1);
    }
  }

  lemma ArriveKeepsMarked(s: Net, p: Packet, i: nat)
    requires Marked(s, i)
    ensures Marked(SwitchForward(s, p), i)
  {
    var r := SwitchForward(s, p);
    var before, after :| MarkerSplits(s, i, before, after);
    PacketsAppend(after, Pkt(p));
    assert r.toSource == before + [Marker(i)] + (after + [Pkt(p)]);
    assert MarkerSplits(r, i, before, after + [Pkt(p)]);
  }

  lemma SwitchObeysSource(c: Config, s: Net)
    requires Inv(c, s) && Processing(s.source.mode) && s.commands != []
    ensures Inv(c, SwitchObey(s))
  {
    var x := s.commands[0];
    if x.CopyTo? {
      PacketsAppend(s.toSource, Marker(x.attempt));
    }
    SwitchKeepsControl(s);
  }

  lemma SwitchKeepsControl(s: Net)
    requires Bounded(s) && SourceControl(s) && s.commands != []
    ensures Bounded(SwitchObey(s)) && SourceControl(SwitchObey(s))
  {
    var r := SwitchObey(s);
    var x := s.commands[0];
    assert forall y :: y in r.commands ==> y in s.commands;
    assert forall y :: y in r.toSource ==> y in s.toSource || (x.CopyTo? && y == Marker(x.attempt));
    if s.source.mode == WaitStart {
      LastOrder(s, |s.targets| - 1);
    }
  }

  /** The switch reaches the current copy command last, and then emits the marker. */
  lemma LastOrder(s: Net, i: nat)
    requires Ordered(s, i)
    ensures Ordered(SwitchObey(s), i) || Marked(SwitchObey(s), i)
  {
    var r := SwitchObey(s);
    if |s.commands| == 1 {
      assert r.toSource == s.toSource + [Marker(i)] + [];
      assert MarkerSplits(r, i, s.toSource, []);
    } else {
      var front := s.commands[..|s.commands| - 1];
      assert s.commands[0] == front[0] && s.commands[0] in front;
      assert r.commands[..|r.commands| - 1] == front[1..];
    }
  }

  lemma NewAttempt(c: Config, s: Net, node: int)
    requires Inv(c, s) && s.source.mode == HandlePackets
    ensures Inv(c, AfterStartAtom(c, s, node))
  {
    var r := AfterStartAtom(c, s, node);
    if node != -1 {
      assert forall i :: 0 <= i < |s.targets| ==> r.targets[i] == s.targets[i];
    }
  }

  lemma AckArrives(c: Config, s: Net, i: nat)
    requires Inv(c, s) && Processing(s.source.mode) && i in s.acks
    ensures Inv(c, Next(c, s, DeliverAck(i)))
  {
    if Current(s, i) && s.source.mode == WaitPrepare {
      AckOrdersCopy(s, i);
    } else {
      SameControl(s, s.(acks := s.acks - {i}));
    }
  }

  lemma AckOrdersCopy(s: Net, i: nat)
    requires Bounded(s) && SourceControl(s) && Current(s, i) && s.source.mode == WaitPrepare
    ensures var r := s.(acks := s.acks - {i}, source := OnAck(s.source, i), commands := s.commands + [CopyTo(i)]);
            Bounded(r) && SourceControl(r)
  {
    var r := s.(acks := s.acks - {i}, source := OnAck(s.source, i), commands := s.commands + [CopyTo(i)]);
    assert r.commands[..|r.commands| - 1] == s.commands;
    assert Ordered(r, i);
  }

  lemma SameControl(s: Net, r: Net)
    requires Bounded(s) && SourceControl(s)
    requires r.dest == s.dest && r.commands == s.commands && r.toSource == s.toSource && r.targets == s.targets
    requires r.source.mode in {s.source.mode, HandlePackets} && r.source.peer == s.source.peer
    requires r.acks <= s.acks && r.rejects <= s.rejects && r.completions == s.completions
    ensures Bounded(r) && SourceControl(r)
  {
    SameChannels(s, r);
  }

  lemma RejectArrives(c: Config, s: Net, i: nat)
    requires Inv(c, s) && Processing(s.source.mode) && i in s.rejects
    ensures Inv(c, Next(c, s, DeliverReject(i)))
  {
    SameControl(s, Next(c, s, DeliverReject(i)));
  }

  /** Steps that leave the channels alone keep the position of the marker. */
  lemma SameChannels(s: Net, r: Net)
    requires s.dest == r.dest && s.commands == r.commands && s.toSource == r.toSource && s.targets == r.targets
    ensures forall i: nat :: Marked(s, i) ==> Marked(r, i)
  {
    forall i: nat | Marked(s, i) ensures Marked(r, i) {
      var before, after :| MarkerSplits(s, i, before, after);
      assert MarkerSplits(r, i, before, after);
    }
  }

  lemma SourceTimeoutKeepsInv(c: Config, s: Net)
    requires Inv(c, s) && Processing(s.source.mode)
    ensures Inv(c, SourceTimesOut(s))
  {
  }

  lemma SourceTakesPacket(c: Config, s: Net, node: int)
    requires Inv(c, s) && Processing(s.source.mode) && s.toSource != [] && s.toSource[0].Pkt?
    ensures Inv(c, SourceTakes(c, s, node, true))
  {
    PacketKeepsFlow(c, s, node);
    PopKeepsControl(s, SourceTakes(c, s, node, true));
  }

  lemma PacketKeepsFlow(c: Config, s: Net, node: int)
    requires SourceFlow(c, s) && Processing(s.source.mode) && s.toSource != [] && s.toSource[0].Pkt?
    ensures SourceFlow(c, SourceTakes(c, s, node, true))
  {
    var p, n := s.toSource[0].p, |s.log|;
    PopFront(s.toSource);
    assert s.stream[n] == p && s.stream[..n + 1] == s.stream[..n] + [p];
    OneMore(c.nf, c.fs, s.stream[..n], p);
    assert s.stream[n + 1..] == s.stream[n..][1..];
  }

  /** Taking anything but the awaited marker from the channel leaves the attempt as it is. */
  lemma PopKeepsControl(s: Net, r: Net)
    requires Bounded(s) && SourceControl(s) && s.toSource != []
    requires s.source.mode == WaitStart ==> s.toSource[0] != Marker(|s.targets| - 1)
    requires r.toSource == s.toSource[1..] && r.dest == s.dest && r.commands == s.commands && r.targets == s.targets
    requires r.source.mode == s.source.mode && r.source.peer == s.source.peer
    requires r.acks == s.acks && r.rejects == s.rejects && r.completions == s.completions
    ensures Bounded(r) && SourceControl(r)
  {
    assert forall x :: x in r.toSource ==> x in s.toSource;
    if s.source.mode == WaitStart && Marked(s, |s.targets| - 1) {
      MarkerMovesUp(s, r, |s.targets| - 1);
    }
  }

  lemma PopFront(items: seq<Item>)
    requires items != []
    ensures items[0].Pkt? ==> Packets(items) == [items[0].p] + Packets(items[1..])
    ensures items[0].Marker? ==> Packets(items) == Packets(items[1..])
  {
    assert items == [items[0]] + items[1..];
    PacketsConcat([items[0]], items[1..]);
    assert Packets([]) == [];
    assert [items[0]][..0] == [];
  }

  lemma MarkerMovesUp(s: Net, r: Net, i: nat)
    requires Marked(s, i) && s.toSource != [] && s.toSource[0] != Marker(i)
    requires s.dest == r.dest && s.commands == r.commands && r.toSource == s.toSource[1..] && s.targets == r.targets
    ensures Marked(r, i)
  {
    var before, after :| MarkerSplits(s, i, before, after);
    assert before != [];
    assert r.toSource == before[1..] + [Marker(i)] + after;
    assert MarkerSplits(r, i, before[1..], after);
  }

  lemma SourceTakesMarker(c: Config, s: Net, node: int)
    requires Inv(c, s) && Processing(s.source.mode) && s.toSource != [] && s.toSource[0].Marker?
    ensures Inv(c, SourceTakes(c, s, node, true))
  {
    var i := s.toSource[0].attempt;
    if s.source.mode == HandlePackets {
      StaleMarkerAsRequest(c, s, node);
    } else if s.source.mode == WaitStart && Current(s, i) {
      FlowStateLeaves(c, s, node);
    } else {
      MarkerIsIgnored(c, s, s.(toSource := s.toSource[1..]));
    }
  }

  lemma MarkerIsIgnored(c: Config, s: Net, r: Net)
    requires Inv(c, s) && Processing(s.source.mode) && s.toSource != [] && s.toSource[0].Marker?
    requires s.source.mode == WaitStart ==> s.toSource[0] != Marker(|s.targets| - 1)
    requires r == s.(toSource := s.toSource[1..])
    ensures Inv(c, r)
  {
    PopFront(s.toSource);
    PopKeepsControl(s, r);
  }

  /** An idle source takes the marker of an abandoned attempt for a new request. */
  lemma StaleMarkerAsRequest(c: Config, s: Net, node: int)
    requires Inv(c, s) && s.source.mode == HandlePackets && s.toSource != [] && s.toSource[0].Marker?
    ensures Inv(c, AfterStartAtom(c, s.(toSource := s.toSource[1..]), node))
  {
    var r := s.(toSource := s.toSource[1..]);
    PopFront(s.toSource);
    assert forall x :: x in r.toSource ==> x in s.toSource;
    NewAttempt(c, r, node);
  }

  /** The moment of the hand-over: everything before the marker is done, the target has the rest. */
  lemma FlowStateLeaves(c: Config, s: Net, node: int)
    requires Inv(c, s) && s.source.mode == WaitStart && s.toSource != [] && s.toSource[0] == Marker(|s.targets| - 1)
    ensures Inv(c, SourceTakes(c, s, node, true))
  {
    var i := |s.targets| - 1;
    var r := SourceTakes(c, s, node, true);
    assert s.toSource[0] in s.toSource && Marked(s, i);
    HandOverFlow(c, s, r, i);
    HandOverControl(s, r, i);
  }

  lemma HandOverFlow(c: Config, s: Net, r: Net, i: nat)
    requires SourceFlow(c, s) && Marked(s, i) && Waiting(s.targets[i])
    requires s.toSource != [] && s.toSource[0] == Marker(i)
    requires r.targets == s.targets[i := s.targets[i].(flowState := Some(s.source.fs))]
    requires r.log == s.log && r.stream == s.stream
    ensures TargetFlow(c, r, i)
  {
    MarkerInFront(s, i);
    PopFront(s.toSource);
  }

  lemma HandOverControl(s: Net, r: Net, i: nat)
    requires Bounded(s) && SourceControl(s) && Marked(s, i) && s.toSource != []
    requires r.targets == s.targets[i := s.targets[i].(flowState := Some(s.source.fs))]
    requires r.toSource == s.toSource[1..] && r.dest == s.dest && r.commands == s.commands
    requires r.completions == s.completions && r.acks == s.acks && r.rejects == s.rejects
    ensures Bounded(r) && TargetControl(r, i)
  {
    assert forall x :: x in r.toSource ==> x in s.toSource;
    assert forall k :: 0 <= k < |s.targets| && k != i ==> r.targets[k] == s.targets[k];
  }

  lemma MarkerInFront(s: Net, i: nat)
    requires Marked(s, i) && s.toSource != [] && s.toSource[0] == Marker(i)
    ensures s.targets[i].actor.mode == WaitForMigration ==>
              s.targets[i].actor.buffer + s.targets[i].inbox == Packets(s.toSource[1..])
  {
    var before, after :| MarkerSplits(s, i, before, after);
    assert before == [];
    assert s.toSource[1..] == after;
  }

  /** A target without flow state only buffers. */
  lemma WaitingTargetStep(c: Config, s: Net, r: Net, i: nat, t: Target)
    requires Inv(c, s) && Processing(s.source.mode) && i < |s.targets| && Waiting(t)
    requires r == s.(targets := s.targets[i := t], acks := r.acks) && r.acks <= s.acks + {i}
    requires StillBuffers(s.targets[i], t)
    ensures Inv(c, r)
  {
    WaitingTargetControl(s, r, i, t);
    assert SourceFlow(c, r);
  }

  /** What has been copied to the target is in its buffer or on its way, as before, or the target has quit. */
  predicate StillBuffers(s: Target, t: Target) {
    && (t.actor.mode == WaitForMigration ==>
          s.actor.mode == WaitForMigration && t.actor.buffer + t.inbox == s.actor.buffer + s.inbox)
    && (s.inbox == [] && s.actor.buffer == [] ==> t.inbox == [] && t.actor.buffer == [])
  }

  lemma WaitingTargetControl(s: Net, r: Net, i: nat, t: Target)
    requires Bounded(s) && SourceControl(s) && i < |s.targets| && Waiting(t) && StillBuffers(s.targets[i], t)
    requires r == s.(targets := s.targets[i := t], acks := r.acks) && r.acks <= s.acks + {i}
    ensures Bounded(r) && SourceControl(r)
  {
    if s.source.mode == WaitStart && Marked(s, |s.targets| - 1) {
      StillMarked(s, r, i, t, |s.targets| - 1);
    }
  }

  lemma StillMarked(s: Net, r: Net, i: nat, t: Target, k: nat)
    requires Marked(s, k) && i < |s.targets| && StillBuffers(s.targets[i], t)
    requires r == s.(targets := s.targets[i := t], acks := r.acks)
    ensures Marked(r, k)
  {
    var before, after :| MarkerSplits(s, k, before, after);
    assert MarkerSplits(r, k, before, after);
  }

  lemma TargetStepWhileSourceOwns(c: Config, s: Net, a: Step)
    requires Inv(c, s) && Enabled(s, a) && Processing(s.source.mode)
    requires a.TargetPacket? || a.TargetFlowState? || a.TargetTimeout?
    ensures Inv(c, Next(c, s, a))
  {
    var i := a.attempt;
    assert Waiting(s.targets[i]);
    if !a.TargetFlowState? {
      WaitingTargetStep(c, s, Next(c, s, a), i, Next(c, s, a).targets[i]);
    }
  }

  lemma PrepareWhileSourceOwns(c: Config, s: Net, a: Step)
    requires Inv(c, s) && Enabled(s, a) && Processing(s.source.mode) && a.Prepare?
    ensures Inv(c, Next(c, s, a))
  {
    var r := Next(c, s, a);
    if a.accept {
      assert Waiting(s.targets[a.attempt]);
      WaitingTargetStep(c, s, r, a.attempt, r.targets[a.attempt]);
    } else {
      SameChannels(s, r);
    }
  }

  lemma StepWhileSourceOwns(c: Config, s: Net, a: Step)
    requires Inv(c, s) && Enabled(s, a) && Processing(s.source.mode)
    ensures Inv(c, Next(c, s, a))
  {
    match a
    case Arrive(p) => ArriveAtSource(c, s, p);
    case SwitchCommand => SwitchObeysSource(c, s);
    case Request(node) => if s.source.mode == HandlePackets { NewAttempt(c, s, node); }
    case Prepare(_, _) => PrepareWhileSourceOwns(c, s, a);
    case DeliverAck(i) => AckArrives(c, s, i);
    case DeliverReject(i) => RejectArrives(c, s, i);
    case SourceTimeout => SourceTimeoutKeepsInv(c, s);
    case SourceItem(node) =>
      if s.toSource[0].Pkt? { SourceTakesPacket(c, s, node); } else { SourceTakesMarker(c, s, node); }
    case TargetPacket(_) => TargetStepWhileSourceOwns(c, s, a);
    case TargetFlowState(_) => TargetStepWhileSourceOwns(c, s, a);
    case TargetTimeout(_) => TargetStepWhileSourceOwns(c, s, a);
    case DeliverComplete(i) =>
  }

  // ----- Steps after the flow state has left the source

  lemma ArriveAtTarget(c: Config, s: Net, p: Packet)
    requires Inv(c, s) && !Processing(s.source.mode)
    ensures Inv(c, SwitchForward(s, p))
  {
    var r := SwitchForward(s, p);
    var n := |s.log|;
    assert r.stream == s.stream + [p] && r.log == s.log;
    assert r.stream[..n] == s.stream[..n] && r.stream[n..] == s.stream[n..] + [p];
    var t := s.targets[|s.targets| - 1];
    assert t.actor.buffer + (t.inbox + [p]) == t.actor.buffer + t.inbox + [p];
  }

  /** The owning target processes one packet of the stream. */
  lemma OwnerTakesPacket(c: Config, s: Net, i: nat)
    requires Inv(c, s) && !Processing(s.source.mode) && Current(s, i) && s.targets[i].inbox != []
    ensures Inv(c, TargetTakesPacket(c, s, i))
  {
    var r := TargetTakesPacket(c, s, i);
    var t := s.targets[i];
    var p, n := t.inbox[0], |s.log|;
    if t.actor.mode == HandlePackets {
      assert s.stream[n] == p && s.stream[..n + 1] == s.stream[..n] + [p];
      OneMore(c.nf, c.fs, s.stream[..n], p);
      assert r.stream[|r.log|..] == s.stream[n..][1..];
    } else if t.actor.mode == WaitForMigration {
      assert t.actor.buffer + [p] + t.inbox[1..] == t.actor.buffer + t.inbox;
    }
  }

  /** The owning target takes the flow state and drains what it has buffered. */
  lemma OwnerTakesFlowState(c: Config, s: Net, i: nat)
    requires Inv(c, s) && !Processing(s.source.mode) && Current(s, i) && s.targets[i].flowState.Some?
    ensures Inv(c, TargetTakesFlowState(c, s, i))
  {
    if s.targets[i].actor.mode == WaitForMigration {
      DrainKeepsFlow(c, s, i);
      assert TargetControl(TargetTakesFlowState(c, s, i), i);
    }
  }

  lemma DrainKeepsFlow(c: Config, s: Net, i: nat)
    requires i < |s.targets| && TargetFlow(c, s, i) && s.targets[i].actor.mode == WaitForMigration
    ensures TargetFlow(c, TargetTakesFlowState(c, s, i), i)
  {
    var r := TargetTakesFlowState(c, s, i);
    var n, buffer := |s.log|, s.targets[i].actor.buffer;
    assert s.stream[n..][..|buffer|] == buffer;
    assert s.stream[..n + |buffer|] == s.stream[..n] + buffer;
    Continue(c.nf, c.fs, s.stream[..n], buffer);
    assert r.stream[|r.log|..] == s.stream[n..][|buffer|..];
  }

  lemma TargetStepWhileTargetOwns(c: Config, s: Net, a: Step)
    requires Inv(c, s) && Enabled(s, a) && !Processing(s.source.mode)
    requires a.TargetPacket? || a.TargetFlowState? || a.TargetTimeout?
    ensures Inv(c, Next(c, s, a))
  {
    var i := a.attempt;
    if !Current(s, i) {
      WaitingWhileTargetOwns(c, s, a);
    } else if a.TargetPacket? {
      OwnerTakesPacket(c, s, i);
    } else if a.TargetFlowState? {
      OwnerTakesFlowState(c, s, i);
    }
  }

  lemma WaitingWhileTargetOwns(c: Config, s: Net, a: Step)
    requires Inv(c, s) && Enabled(s, a) && !Processing(s.source.mode)
    requires a.TargetPacket? || a.TargetFlowState? || a.TargetTimeout?
    requires !Current(s, a.attempt)
    ensures Inv(c, Next(c, s, a))
  {
    assert Waiting(s.targets[a.attempt]);
    var r := Next(c, s, a);
    OtherTargetChanges(c, s, r, a.attempt, r.targets[a.attempt]);
  }

  /** Whatever happens to the targets of abandoned attempts, as long as they wait. */
  lemma OtherTargetChanges(c: Config, s: Net, r: Net, i: nat, t: Target)
    requires Inv(c, s) && !Processing(s.source.mode) && i < |s.targets| && !Current(s, i) && Waiting(t)
    requires r == s.(targets := s.targets[i := t])
    ensures Inv(c, r)
  {
  }

  /** What the source still receives, it only counts. */
  lemma SourceStepWhileTargetOwns(c: Config, s: Net, a: Step)
    requires Inv(c, s) && Enabled(s, a) && !Processing(s.source.mode)
    requires a.SourceItem? || a.SourceTimeout? || a.Request?
    ensures Inv(c, Next(c, s, a))
  {
    var r := Next(c, s, a);
    assert r.log == s.log && r.targets == s.targets && r.stream == s.stream;
    assert forall x :: x in r.toSource ==> x in s.toSource;
  }

  lemma SwitchWhileTargetOwns(c: Config, s: Net)
    requires Inv(c, s) && s.commands != [] && !Processing(s.source.mode)
    ensures Inv(c, SwitchObey(s))
  {
    var r := SwitchObey(s);
    assert s.commands[0] in s.commands;
    assert forall x :: x in r.commands ==> x in s.commands;
  }

  lemma ReplyWhileTargetOwns(c: Config, s: Net, a: Step)
    requires Inv(c, s) && Enabled(s, a) && !Processing(s.source.mode)
    requires a.DeliverAck? || a.DeliverReject? || a.DeliverComplete?
    ensures Inv(c, Next(c, s, a))
  {
    var r := Next(c, s, a);
    assert r.targets == s.targets && r.stream == s.stream && r.log == s.log && r.dest == s.dest;
    if a.DeliverComplete? {
      CompleteWhileTargetOwns(c, s, a.attempt);
    }
  }

  lemma CompleteWhileTargetOwns(c: Config, s: Net, i: nat)
    requires Inv(c, s) && i in s.completions && !Processing(s.source.mode)
    ensures Inv(c, Next(c, s, DeliverComplete(i)))
  {
    assert Current(s, i);
    var r := Next(c, s, DeliverComplete(i));
    SameFlow(c, s, r, i);
    assert forall x :: x in r.commands ==> x in s.commands || x == CancelSend(i);
    assert TargetControl(r, i);
  }

  lemma StepWhileTargetOwns(c: Config, s: Net, a: Step)
    requires Inv(c, s) && Enabled(s, a) && !Processing(s.source.mode)
    ensures Inv(c, Next(c, s, a))
  {
    match a
    case Arrive(p) => ArriveAtTarget(c, s, p);
    case TargetPacket(_) => TargetStepWhileTargetOwns(c, s, a);
    case TargetFlowState(_) => TargetStepWhileTargetOwns(c, s, a);
    case TargetTimeout(_) => TargetStepWhileTargetOwns(c, s, a);
    case SourceItem(_) => SourceStepWhileTargetOwns(c, s, a);
    case SourceTimeout => SourceStepWhileTargetOwns(c, s, a);
    case Request(_) => SourceStepWhileTargetOwns(c, s, a);
    case Prepare(i, accept) => PrepareWhileTargetOwns(c, s, a);
    case SwitchCommand => SwitchWhileTargetOwns(c, s);
    case _ => ReplyWhileTargetOwns(c, s, a);
  }

  lemma PrepareWhileTargetOwns(c: Config, s: Net, a: Step)
    requires Inv(c, s) && Enabled(s, a) && !Processing(s.source.mode) && a.Prepare?
    ensures Inv(c, Next(c, s, a))
  {
    var r := Next(c, s, a);
    var i := |s.targets| - 1;
    assert forall k :: 0 <= k < |s.targets| ==>
                         r.targets[k] == s.targets[k] || r.targets[k] == s.targets[k].(created := true);
    SameFlow(c, s, r, i);
    SameTargetControl(s, r, i);
  }

  lemma SameFlow(c: Config, s: Net, r: Net, i: nat)
    requires i < |s.targets| && TargetFlow(c, s, i) && i < |r.targets|
    requires r.targets[i] == s.targets[i] || r.targets[i] == s.targets[i].(created := true)
    requires r.stream == s.stream && r.log == s.log
    ensures TargetFlow(c, r, i)
  {
  }

  lemma SameTargetControl(s: Net, r: Net, i: nat)
    requires Bounded(s) && TargetControl(s, i) && |r.targets| == |s.targets|
    requires forall k :: 0 <= k < |s.targets| ==>
                           r.targets[k] == s.targets[k] || r.targets[k] == s.targets[k].(created := true)
    requires r.dest == s.dest && r.commands == s.commands && r.toSource == s.toSource
    requires r.completions <= s.completions
    requires forall k :: k in r.acks || k in r.rejects ==> k < |s.targets|
    ensures Bounded(r) && TargetControl(r, i)
  {
  }

  lemma StepKeepsInv(c: Config, s: Net, a: Step)
    requires Inv(c, s) && Enabled(s, a)
    ensures Inv(c, Next(c, s, a))
  {
    if Processing(s.source.mode) {
      StepWhileSourceOwns(c, s, a);
    } else {
      StepWhileTargetOwns(c, s, a);
    }
  }

  // ----- Whole runs

  predicate Steps(c: Config, r: Net, a: Step, s: Net) {
    Enabled(r, a) && s == Next(c, r, a)
  }

  ghost predicate Reaches(c: Config, steps: seq<Step>, s: Net)
    decreases |steps|
  {
    if steps == [] then s == Start(c)
    else
      var a := steps[|steps| - 1];
      exists r :: Reaches(c, steps[..|steps| - 1], r) && Steps(c, r, a, s)
  }

  lemma {:induction false} ReachableInv(c: Config, steps: seq<Step>, s: Net)
    requires Reaches(c, steps, s)
    ensures Inv(c, s)
    decreases |steps|
  {
    if steps != [] {
      var front, a := steps[..|steps| - 1], steps[|steps| - 1];
      var r :| Reaches(c, front, r) && Steps(c, r, a, s);
      ReachableInv(c, front, r);
      StepKeepsInv(c, r, a);
    }
  }

  // ----- Main results

  /** The flow state of whoever owns the flow, and the packets that owner has yet to process. */
  datatype Owner = Lost | Owner(fs: Flow, pending: seq<Packet>)

  function OwnerOf(s: Net): Owner {
    if Processing(s.source.mode) then Owner(s.source.fs, Packets(s.toSource))
    else if s.targets == [] then Lost
    else
      var t := s.targets[|s.targets| - 1];
      if t.actor.mode == HandlePackets then Owner(t.actor.fs, t.inbox)
      else if t.actor.mode == WaitForMigration && t.flowState.Some?
      then Owner(t.flowState.value, t.actor.buffer + t.inbox)
      else Lost
  }

  /** Whoever owns the flow is where one actor would be and has the rest of the stream before it. */
  predicate CarriesOn(c: Config, s: Net) {
    InOrder(c, s) && OwnerOf(s) == Owner(Reference(c, s), s.stream[|s.log|..])
  }

  /**
   The actions executed so far are the first actions of one actor, and whoever owns the flow would, by
   processing what is on its way to it, end with that actor's flow state and actions. The flow is lost
   only if the target that was given the flow state has quit.
   */
  predicate LikeOneActor(c: Config, s: Net) {
    && |s.log| <= |s.stream| && s.log == Actions(c.nf, c.fs, s.stream)[..|s.log|]
    && match OwnerOf(s)
       case Owner(fs, pending) =>
         && s.stream == s.stream[..|s.log|] + pending
         && fs == After(c.nf, c.fs, s.stream[..|s.log|])
         && After(c.nf, fs, pending) == After(c.nf, c.fs, s.stream)
         && s.log + Actions(c.nf, fs, pending) == Actions(c.nf, c.fs, s.stream)
       case Lost => s.targets != [] && s.targets[|s.targets| - 1].actor.mode == Quit
  }

  lemma InvIsLikeOneActor(c: Config, s: Net)
    requires Inv(c, s)
    ensures LikeOneActor(c, s)
  {
    OwnerHasTheRest(c, s);
    RestOfStream(c, s);
  }

  /** Source, targets and switch together behave like one actor, after every run. */
  lemma BehavesLikeOneActor(c: Config, steps: seq<Step>, s: Net)
    requires Reaches(c, steps, s)
    ensures LikeOneActor(c, s)
  {
    ReachableInv(c, steps, s);
    InvIsLikeOneActor(c, s);
  }

  lemma RestOfStream(c: Config, s: Net)
    requires InOrder(c, s)
    ensures var n, fs := |s.log|, Reference(c, s);
            && s.stream == s.stream[..n] + s.stream[n..]
            && s.log == Actions(c.nf, c.fs, s.stream)[..n]
            && After(c.nf, fs, s.stream[n..]) == After(c.nf, c.fs, s.stream)
            && s.log + Actions(c.nf, fs, s.stream[n..]) == Actions(c.nf, c.fs, s.stream)
  {
    var n := |s.log|;
    assert s.stream == s.stream[..n] + s.stream[n..];
    Continue(c.nf, c.fs, s.stream[..n], s.stream[n..]);
  }

  lemma OwnerHasTheRest(c: Config, s: Net)
    requires Inv(c, s)
    ensures InOrder(c, s)
    ensures match OwnerOf(s)
            case Owner(fs, pending) => fs == Reference(c, s) && pending == s.stream[|s.log|..]
            case Lost => s.targets != [] && s.targets[|s.targets| - 1].actor.mode == Quit
  {
    if !Processing(s.source.mode) {
      assert TargetFlow(c, s, |s.targets| - 1);
    }
  }

  /** Never do two actors process the flow, and only the current target ever processes anything. */
  lemma OnlyTheOwnerProcesses(c: Config, steps: seq<Step>, s: Net, i: nat)
    requires Reaches(c, steps, s) && i < |s.targets| && Processing(s.targets[i].actor.mode)
    ensures !Processing(s.source.mode) && Current(s, i) && s.targets[i].flowState.None?
  {
    ReachableInv(c, steps, s);
    OthersWait(c, s, i);
  }

  lemma OthersWait(c: Config, s: Net, i: nat)
    requires Inv(c, s) && i < |s.targets|
    ensures Processing(s.source.mode) || !Current(s, i) ==> Waiting(s.targets[i])
    ensures !Processing(s.source.mode) && Current(s, i) ==> TargetFlow(c, s, i)
  {
  }

  /** A target that has not handled the flow state processes nothing, whatever has happened so far. */
  lemma {:induction false} TargetBuffersFirst(c: Config, steps: seq<Step>, s: Net, i: nat)
    requires Reaches(c, steps, s) && i < |s.targets| && TargetFlowState(i) !in steps
    ensures !Processing(s.targets[i].actor.mode) && s.targets[i].actor.fs == c.fs
    decreases |steps|
  {
    if steps != [] {
      var front, a := steps[..|steps| - 1], steps[|steps| - 1];
      var r :| Reaches(c, front, r) && Steps(c, r, a, s);
      assert a in steps;
      if i < |r.targets| {
        TargetBuffersFirst(c, front, r, i);
      }
      StepBeforeFlowState(c, r, a, i);
    }
  }

  lemma StepBeforeFlowState(c: Config, s: Net, a: Step, i: nat)
    requires Enabled(s, a) && a != TargetFlowState(i) && i < |Next(c, s, a).targets|
    requires i < |s.targets| ==> !Processing(s.targets[i].actor.mode) && s.targets[i].actor.fs == c.fs
    ensures var t := Next(c, s, a).targets[i].actor; !Processing(t.mode) && t.fs == c.fs
  {
  }

  /**
   An attempt that times out or gets a reject, even the late reject of an earlier attempt, returns the
   source to normal operation with its flow state, its actions and its unprocessed packets as they
   were, and no target in mind.
   */
  lemma AbortIsHarmless(c: Config, steps: seq<Step>, s: Net, a: Step)
    requires Reaches(c, steps, s) && Enabled(s, a)
    requires s.source.mode in {WaitPrepare, WaitStart}
    requires a.SourceTimeout? || (a.DeliverReject? && s.source.mode == WaitPrepare)
    ensures var r := Next(c, s, a);
            && r.source == s.source.(mode := HandlePackets, migrateTo := -1)
            && r.log == s.log && r.stream == s.stream && Packets(r.toSource) == Packets(s.toSource)
            && CarriesOn(c, r)
  {
    ReachableInv(c, steps, s);
    StepKeepsInv(c, s, a);
    OwnerHasTheRest(c, Next(c, s, a));
  }

  /** The source names a migration target exactly while it is not in normal operation. */
  lemma NormalMeansNoTarget(c: Config, steps: seq<Step>, s: Net)
    requires Reaches(c, steps, s)
    ensures s.source.mode == HandlePackets <==> s.source.migrateTo == -1
  {
    ReachableInv(c, steps, s);
  }
}
