/**
 The actors of a migration as objects: the source, the targets, and the messages and packets between
 them. Every step of the protocol is a handler call followed by the transmission of what it sends.
 */
module Network {
  import opened Wrappers
  import opened NfActor
  import opened Migration

  // ----- Transmission

  /** What becomes of one message that the source sends, or target `from`. */
  function Sent(c: Config, s: Net, from: Option<nat>, x: Send): Net {
    match x
    case PrepareToBuffer(_) => s.(targets := s.targets + [NewTarget(c, false)])
    case CopyFlow(_) => if s.targets == [] then s else s.(commands := s.commands + [CopyTo(|s.targets| - 1)])
    case StopCopying(_) => if s.targets == [] then s else s.(commands := s.commands + [CancelCopy(|s.targets| - 1)])
    case StopSending => if s.targets == [] then s else s.(commands := s.commands + [CancelSend(|s.targets| - 1)])
    case FlowState(peer, fs) =>
      if peer.Some? && peer.value < |s.targets|
      then WithTarget(s, peer.value, s.targets[peer.value].(flowState := Some(fs))) else s
    case MigrationComplete => if from.Some? then s.(completions := s.completions + {from.value}) else s
    case Notify(_) => s
  }

  function SentAll(c: Config, s: Net, from: Option<nat>, xs: seq<Send>): Net
    decreases |xs|
  {
    if xs == [] then s else SentAll(c, Sent(c, s, from, xs[0]), from, xs[1..])
  }

  lemma SentOne(c: Config, s: Net, from: Option<nat>, x: Send)
    ensures SentAll(c, s, from, [x]) == Sent(c, s, from, x)
  {
    assert [x][1..] == [];
  }

  lemma SentTwo(c: Config, s: Net, from: Option<nat>, x: Send, y: Send)
    ensures SentAll(c, s, from, [x, y]) == Sent(c, Sent(c, s, from, x), from, y)
  {
    assert [x, y][1..] == [y];
    SentOne(c, Sent(c, s, from, x), from, y);
  }

  // ----- The steps of the protocol are handlers and transmissions

  lemma StartAtomStep(c: Config, s: Net, node: int)
    ensures AfterStartAtom(c, s, node)
            == SentAll(c, s.(source := OnStartAtom(s.source, node)), None, StartAtomSends(s.source, node))
  {
    var r := s.(source := OnStartAtom(s.source, node));
    if StartAtomSends(s.source, node) != [] {
      SentOne(c, r, None, StartAtomSends(s.source, node)[0]);
    }
  }

  lemma AckStep(c: Config, s: Net, i: nat)
    requires i in s.acks && Current(s, i)
    ensures NextWith(c, s, DeliverAck(i), true)
            == SentAll(c, s.(acks := s.acks - {i}, source := OnAck(s.source, i)), None, AckSends(s.source))
  {
    var r := s.(acks := s.acks - {i}, source := OnAck(s.source, i));
    if s.source.mode == WaitPrepare {
      SentOne(c, r, None, CopyFlow(s.source.migrateTo));
    }
  }

  lemma RejectStep(c: Config, s: Net, i: nat)
    requires i in s.rejects
    ensures NextWith(c, s, DeliverReject(i), true)
            == SentAll(c, s.(rejects := s.rejects - {i}, source := OnReject(s.source)), None, RejectSends(s.source))
  {
    var r := s.(rejects := s.rejects - {i}, source := OnReject(s.source));
    if s.source.mode == WaitPrepare {
      SentOne(c, r, None, Notify(Rejected));
    }
  }

  lemma TimeoutStep(c: Config, s: Net)
    ensures SourceTimesOut(s) == SentAll(c, s.(source := OnTimeout(s.source)), None, TimeoutSends(s.source))
  {
    var r := s.(source := OnTimeout(s.source));
    if s.source.mode == WaitStart {
      SentTwo(c, r, None, StopCopying(s.source.migrateTo), Notify(StartLost));
    } else if TimeoutSends(s.source) != [] {
      SentOne(c, r, None, TimeoutSends(s.source)[0]);
    }
  }

  lemma CompleteStep(c: Config, s: Net, i: nat)
    requires i in s.completions
    ensures NextWith(c, s, DeliverComplete(i), true)
            == SentAll(c, s.(completions := s.completions - {i}, source := OnComplete(s.source)), None,
                       CompleteSends(s.source))
  {
    var r := s.(completions := s.completions - {i}, source := OnComplete(s.source));
    if s.source.mode == WaitComplete {
      SentTwo(c, r, None, StopSending, Notify(Succeeded));
    }
  }

  lemma FlowStateStep(c: Config, s: Net, i: nat)
    requires i < |s.targets| && s.targets[i].flowState.Some?
    ensures var t := s.targets[i];
            var (actor, actions) := OnFlowState(c.nf, t.actor, t.flowState.value);
            TargetTakesFlowState(c, s, i)
            == SentAll(c, WithTarget(s, i, t.(actor := actor, flowState := None)).(log := s.log + actions),
                       Some(i), FlowStateSends(t.actor))
  {
    var t := s.targets[i];
    var (actor, actions) := OnFlowState(c.nf, t.actor, t.flowState.value);
    var r := WithTarget(s, i, t.(actor := actor, flowState := None)).(log := s.log + actions);
    if t.actor.mode == WaitForMigration {
      SentOne(c, r, Some(i), MigrationComplete);
    }
  }

  // ----- The objects

  class Network {
    const c: Config
    const source: Nf
    var stream: seq<Packet>
    var dest: Dest
    var commands: seq<Command>
    var toSource: seq<Item>
    var acks: set<nat>
    var rejects: set<nat>
    var completions: set<nat>
    var log: seq<Action>
    // one entry for each attempt
    var actors: seq<Nf>
    var created: seq<bool>
    var inboxes: seq<seq<Packet>>
    var flowStates: seq<Option<Flow>>

    ghost predicate Valid()
      reads this
    {
      && source.nf == c.nf && source.limits == c.limits
      && |created| == |inboxes| == |flowStates| == |actors|
      && (forall i :: 0 <= i < |actors| ==> actors[i].nf == c.nf && actors[i].limits == c.limits && actors[i] != source)
      && (forall i, j :: 0 <= i < j < |actors| ==> actors[i] != actors[j])
    }

    ghost function Targets(): seq<Target>
      requires Valid()
      reads this, actors
    {
      seq(|actors|, i requires 0 <= i < |actors| reads this, actors requires Valid() =>
        Target(created[i], actors[i].View(), inboxes[i], flowStates[i]))
    }

    ghost function View(): Net
      requires Valid()
      reads this, source, actors
    {
      Net(stream, dest, commands, toSource, source.View(), Targets(), acks, rejects, completions, log)
    }

    constructor (c: Config)
      ensures Valid() && this.c == c && View() == Start(c)
      ensures fresh(source) && actors == []
    {
      this.c := c;
      source := new Nf.Source(c.nf, c.limits, c.fs);
      stream, dest, commands, toSource := [], ToSource, [], [];
      acks, rejects, completions, log := {}, {}, {}, [];
      actors, created, inboxes, flowStates := [], [], [], [];
    }

    /** A request for a new target: the object exists from now on, its actor runs once it is created. */
    method AddTarget()
      requires Valid()
      modifies this
      ensures Valid() && (forall k :: k in actors ==> k in old(actors) || fresh(k))
      ensures View() == old(View()).(targets := old(Targets()) + [NewTarget(c, false)])
    {
      ghost var before := Targets();
      var actor := new Nf.Target(c.nf, c.limits, c.fs, c.sourceNode);
      actors, created := actors + [actor], created + [false];
      inboxes, flowStates := inboxes + [[]], flowStates + [None];
      assert Targets() == before + [NewTarget(c, false)];
    }

    // ----- Transmission

    method Transmit(from: Option<nat>, xs: seq<Send>)
      requires Valid()
      modifies this
      ensures Valid() && (forall k :: k in actors ==> k in old(actors) || fresh(k))
      ensures View() == SentAll(c, old(View()), from, xs)
    {
      var todo := xs;
      while todo != []
        invariant Valid() && (forall k :: k in actors ==> k in old(actors) || fresh(k))
        invariant source.View() == old(source.View())
        invariant SentAll(c, View(), from, todo) == SentAll(c, old(View()), from, xs)
        decreases |todo|
      {
        TransmitOne(from, todo[0]);
        todo := todo[1..];
      }
    }

    method TransmitOne(from: Option<nat>, x: Send)
      requires Valid()
      modifies this
      ensures Valid() && (forall k :: k in actors ==> k in old(actors) || fresh(k))
      ensures View() == Sent(c, old(View()), from, x)
    {
      match x {
        case PrepareToBuffer(_) => AddTarget();
        case CopyFlow(_) => if actors != [] { Order(CopyTo(|actors| - 1)); }
        case StopCopying(_) => if actors != [] { Order(CancelCopy(|actors| - 1)); }
        case StopSending => if actors != [] { Order(CancelSend(|actors| - 1)); }
        case FlowState(peer, fs) =>
          if peer.Some? && peer.value < |actors| { Hand(peer.value, fs); }
        case MigrationComplete =>
          if from.Some? { Complete(from.value); }
        case Notify(_) =>
      }
    }

    method Order(x: Command)
      requires Valid()
      modifies `commands
      ensures Valid() && View() == old(View()).(commands := old(commands) + [x])
    {
      commands := commands + [x];
    }

    method Complete(i: nat)
      requires Valid()
      modifies `completions
      ensures Valid() && View() == old(View()).(completions := old(completions) + {i})
    {
      completions := completions + {i};
    }

    /** The flow state is on its way to target `i`. */
    method Hand(i: nat, fs: Flow)
      requires Valid() && i < |actors|
      modifies `flowStates
      ensures Valid() && View() == WithTarget(old(View()), i, old(Targets())[i].(flowState := Some(fs)))
    {
      ghost var before := Targets();
      flowStates := flowStates[i := Some(fs)];
      assert Targets() == before[i := before[i].(flowState := Some(fs))];
    }

    // ----- The switch

    method Arrive(p: Packet)
      requires Valid()
      modifies this
      ensures Valid() && actors == old(actors) && View() == SwitchForward(old(View()), p)
    {
      stream := stream + [p];
      if !dest.ToTarget? {
        toSource := toSource + [Pkt(p)];
      }
      if !dest.ToSource? && dest.attempt < |actors| {
        Forward(dest.attempt, p);
      }
    }

    method Forward(i: nat, p: Packet)
      requires Valid() && i < |actors|
      modifies `inboxes
      ensures Valid() && View() == WithTarget(old(View()), i, old(Targets())[i].(inbox := old(inboxes[i]) + [p]))
    {
      ghost var before := Targets();
      inboxes := inboxes[i := inboxes[i] + [p]];
      assert Targets() == before[i := before[i].(inbox := before[i].inbox + [p])];
    }

    method Obey()
      requires Valid() && commands != []
      modifies `dest, `commands, `toSource
      ensures Valid() && View() == SwitchObey(old(View()))
    {
      match commands[0] {
        case CopyTo(i) => dest, toSource := Copying(i), toSource + [Marker(i)];
        case CancelCopy(i) => if dest == Copying(i) { dest := ToSource; }
        case CancelSend(i) => if dest == Copying(i) { dest := ToTarget(i); }
      }
      commands := commands[1..];
    }

    // ----- The source

    method Ask(node: int)
      requires Valid()
      modifies this, source
      ensures Valid() && (forall k :: k in actors ==> k in old(actors) || fresh(k))
      ensures View() == AfterStartAtom(c, old(View()), node)
    {
      StartAtomStep(c, View(), node);
      var sends := source.HandleStartAtom(node);
      Transmit(None, sends);
    }

    method TakeItem(node: int)
      requires Valid() && toSource != []
      modifies this, source
      ensures Valid() && (forall k :: k in actors ==> k in old(actors) || fresh(k))
      ensures View() == SourceTakes(c, old(View()), node, true)
    {
      var item := toSource[0];
      toSource := toSource[1..];
      match item {
        case Pkt(p) => TakePacket(p);
        case Marker(i) =>
          if source.mode != WaitStart || i == |actors| - 1 {
            Ask(node);
          }
      }
    }

    method TakePacket(p: Packet)
      requires Valid()
      modifies `log, source
      ensures Valid()
      ensures var (actor, actions) := OnPacket(c.nf, c.limits, old(source.View()), p);
              View() == old(View()).(source := actor, log := old(log) + actions)
    {
      var actions, _ := source.HandlePacket(p);
      log := log + actions;
    }

    method TakeAck(i: nat)
      requires Valid() && i in acks
      modifies this, source
      ensures Valid() && (forall k :: k in actors ==> k in old(actors) || fresh(k))
      ensures View() == Next(c, old(View()), DeliverAck(i))
    {
      ghost var s := View();
      acks := acks - {i};
      if i == |actors| - 1 {
        AckStep(c, s, i);
        var sends := source.HandleAck(i);
        Transmit(None, sends);
      }
    }

    method TakeReject(i: nat)
      requires Valid() && i in rejects
      modifies this, source
      ensures Valid() && (forall k :: k in actors ==> k in old(actors) || fresh(k))
      ensures View() == Next(c, old(View()), DeliverReject(i))
    {
      RejectStep(c, View(), i);
      rejects := rejects - {i};
      var sends := source.HandleReject();
      Transmit(None, sends);
    }

    method TimeOut()
      requires Valid()
      modifies this, source
      ensures Valid() && (forall k :: k in actors ==> k in old(actors) || fresh(k))
      ensures View() == SourceTimesOut(old(View()))
    {
      TimeoutStep(c, View());
      var sends := source.HandleTimeout();
      Transmit(None, sends);
    }

    method TakeCompletion(i: nat)
      requires Valid() && i in completions
      modifies this, source
      ensures Valid() && (forall k :: k in actors ==> k in old(actors) || fresh(k))
      ensures View() == Next(c, old(View()), DeliverComplete(i))
    {
      ghost var s := View();
      CompleteStep(c, s, i);
      completions := completions - {i};
      var sends := source.HandleComplete();
      assert View() == s.(completions := s.completions - {i}, source := OnComplete(s.source));
      Transmit(None, sends);
    }

    // ----- The targets

    /** The runtime of target `i` answers the request. */
    method Answer(i: nat, accept: bool)
      requires Valid() && i < |actors| && !created[i]
      modifies this
      ensures Valid() && actors == old(actors)
      ensures View() == Next(c, old(View()), Prepare(i, accept))
    {
      ghost var before := Targets();
      if accept {
        created, acks := created[i := true], acks + {i};
        assert Targets() == before[i := before[i].(created := true)];
      } else {
        rejects := rejects + {i};
      }
    }

    method TakePacketAt(i: nat)
      requires Valid() && i < |actors| && inboxes[i] != []
      modifies this, actors[i]
      ensures Valid() && actors == old(actors)
      ensures View() == TargetTakesPacket(c, old(View()), i)
    {
      ghost var before := Targets();
      var p := inboxes[i][0];
      inboxes := inboxes[i := inboxes[i][1..]];
      var actions, _ := actors[i].HandlePacket(p);
      log := log + actions;
      assert Targets() == before[i := Target(created[i], actors[i].View(), inboxes[i], flowStates[i])];
    }

    method TakeFlowStateAt(i: nat)
      requires Valid() && i < |actors| && flowStates[i].Some?
      modifies this, actors[i]
      ensures Valid() && (forall k :: k in actors ==> k in old(actors) || fresh(k))
      ensures View() == TargetTakesFlowState(c, old(View()), i)
    {
      FlowStateStep(c, View(), i);
      ghost var before := Targets();
      var fs := flowStates[i].value;
      flowStates := flowStates[i := None];
      var actions, sends := actors[i].HandleFlowState(fs);
      log := log + actions;
      assert Targets() == before[i := Target(created[i], actors[i].View(), inboxes[i], flowStates[i])];
      Transmit(Some(i), sends);
    }

    method TimeOutAt(i: nat)
      requires Valid() && i < |actors|
      modifies actors[i]
      ensures Valid()
      ensures View() == WithTarget(old(View()), i, old(Targets())[i].(actor := OnTimeout(old(Targets())[i].actor)))
    {
      ghost var before := Targets();
      var _ := actors[i].HandleTimeout();
      assert Targets() == before[i := before[i].(actor := actors[i].View())];
    }

    // ----- Every step

    /** One step of the protocol, performed by the objects. */
    method Perform(a: Step)
      requires Valid() && Enabled(View(), a)
      modifies this, source, actors
      ensures Valid() && View() == Next(c, old(View()), a)
      ensures forall k :: k in actors ==> k in old(actors) || fresh(k)
    {
      match a {
        case Arrive(p) => Arrive(p);
        case SwitchCommand => Obey();
        case Request(node) => Ask(node);
        case Prepare(i, accept) => Answer(i, accept);
        case DeliverAck(i) => TakeAck(i);
        case DeliverReject(i) => TakeReject(i);
        case SourceTimeout => TimeOut();
        case SourceItem(node) => TakeItem(node);
        case TargetPacket(i) => TakePacketAt(i);
        case TargetFlowState(i) => TakeFlowStateAt(i);
        case TargetTimeout(i) => TimeOutAt(i);
        case DeliverComplete(i) => TakeCompletion(i);
      }
    }
  }

  method PerformAll(net: Network, steps: seq<Step>, ghost s: Net)
    requires net.Valid() && net.View() == Start(net.c) && net.actors == [] && Reaches(net.c, steps, s)
    modifies net, net.source
    ensures net.Valid() && net.View() == s
    ensures forall k :: k in net.actors ==> fresh(k)
    decreases |steps|
  {
    if steps != [] {
      ghost var r := Before(net.c, steps, s);
      PerformAll(net, steps[..|steps| - 1], r);
      forall i | 0 <= i < |net.actors| ensures fresh(net.actors[i]) {
        var k := net.actors[i];
        assert k in net.actors;
      }
      net.Perform(steps[|steps| - 1]);
    }
  }

  lemma Before(c: Config, steps: seq<Step>, s: Net) returns (r: Net)
    requires Reaches(c, steps, s) && steps != []
    ensures Reaches(c, steps[..|steps| - 1], r)
    ensures Enabled(r, steps[|steps| - 1]) && Next(c, r, steps[|steps| - 1]) == s
  {
    var a := steps[|steps| - 1];
    r :| Reaches(c, steps[..|steps| - 1], r) && Steps(c, r, a, s);
  }

  /** A whole run, performed by a new network: the objects behave like one actor. */
  method RunProtocol(c: Config, steps: seq<Step>, ghost s: Net) returns (net: Network)
    requires Reaches(c, steps, s)
    ensures fresh(net) && net.Valid() && net.c == c && net.View() == s && LikeOneActor(c, net.View())
  {
    net := new Network(c);
    PerformAll(net, steps, s);
    BehavesLikeOneActor(c, steps, s);
  }
}
