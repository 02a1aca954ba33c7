/**
 A network-function actor: it processes the packets of one flow and can hand the flow over to an
 actor on another node.  The same class plays the source and the target of a migration.
 */
module NfActor {
  import opened Wrappers

  type Packet(!new, ==)
  type Flow(!new, ==)
  type Action(!new, ==)

  /** The packet handler of the network function: the new flow state and the action to execute. */
  type Handler = (Packet, Flow) -> (Flow, Action)

  datatype Mode =
    | HandlePackets
    | WaitPrepare        // wait_prepare_to_buffer_response
    | WaitStart          // wait_migration_start_msg
    | WaitComplete       // wait_migration_complete_msg
    | WaitForMigration   // what a migration target starts with
    | Disaster           // save_disaster was called
    | Quit

  /** `peer` is the actor at the other end of the migration, as the ack named it. */
  datatype Actor = Actor(mode: Mode, fs: Flow, migrateTo: int, peer: Option<nat>, counter: nat, buffer: seq<Packet>)

  /** What an actor tells its own runtime. */
  datatype Notice = Rejected | NotResponding | StartLost | Succeeded | Overflow | TransferFailed

  /** What a handler sends: to the runtime of the target, to the switch, to its peer, to its runtime. */
  datatype Send =
    | PrepareToBuffer(node: int)
    | CopyFlow(node: int)
    | StopCopying(node: int)
    | StopSending
    | FlowState(peer: Option<nat>, fs: Flow)
    | MigrationComplete
    | Notify(what: Notice)

  /** The two queue bounds. */
  datatype Limits = Limits(maxPacketLog: nat, bufferSize: nat)

  // ----- A single actor that processes a packet stream in order

  function After(nf: Handler, fs: Flow, ps: seq<Packet>): Flow {
    if ps == [] then fs else nf(ps[|ps| - 1], After(nf, fs, ps[..|ps| - 1])).0
  }

  function Actions(nf: Handler, fs: Flow, ps: seq<Packet>): (r: seq<Action>)
    ensures |r| == |ps|
  {
    if ps == [] then []
    else Actions(nf, fs, ps[..|ps| - 1]) + [nf(ps[|ps| - 1], After(nf, fs, ps[..|ps| - 1])).1]
  }

  lemma OneMore(nf: Handler, fs: Flow, ps: seq<Packet>, p: Packet)
    ensures After(nf, fs, ps + [p]) == nf(p, After(nf, fs, ps)).0
    ensures Actions(nf, fs, ps + [p]) == Actions(nf, fs, ps) + [nf(p, After(nf, fs, ps)).1]
  {
    assert (ps + [p])[..|ps|] == ps;
  }

  lemma {:induction false} Continue(nf: Handler, fs: Flow, ps: seq<Packet>, qs: seq<Packet>)
    ensures After(nf, fs, ps + qs) == After(nf, After(nf, fs, ps), qs)
    ensures Actions(nf, fs, ps + qs) == Actions(nf, fs, ps) + Actions(nf, After(nf, fs, ps), qs)
  {
    if qs == [] {
      assert ps + qs == ps;
    } else {
      var front, q := qs[..|qs| - 1], qs[|qs| - 1];
      Continue(nf, fs, ps, front);
      OneMore(nf, fs, ps + front, q);
      assert ps + qs == ps + front + [q];
    }
  }

  // ----- The handlers

  predicate Processing(m: Mode) {
    m in {HandlePackets, WaitPrepare, WaitStart}
  }

  function OnPacket(nf: Handler, l: Limits, a: Actor, p: Packet): (Actor, seq<Action>) {
    if Processing(a.mode) then
      var (fs, action) := nf(p, a.fs);
      (a.(fs := fs), [action])
    else if a.mode == WaitComplete then
      (a.(counter := a.counter + 1, mode := if a.counter + 1 > l.maxPacketLog then Disaster else WaitComplete), [])
    else if a.mode == WaitForMigration then
      (if |a.buffer| >= l.bufferSize then a.(mode := Quit) else a.(buffer := a.buffer + [p]), [])
    else (a, [])
  }

  function PacketSends(l: Limits, a: Actor): seq<Send> {
    if a.mode == WaitForMigration && |a.buffer| >= l.bufferSize then [Notify(Overflow)] else []
  }

  /**
   The same atom asks an idle actor to migrate and tells a waiting one that the switch has started
   copying; `node` is the migration target the runtime would name.
   */
  function OnStartAtom(a: Actor, node: int): Actor {
    if a.mode == HandlePackets then
      a.(migrateTo := node, mode := if node != -1 then WaitPrepare else HandlePackets)
    else if a.mode == WaitStart then a.(mode := WaitComplete, counter := 0)
    else a
  }

  function StartAtomSends(a: Actor, node: int): seq<Send> {
    if a.mode == HandlePackets && node != -1 then [PrepareToBuffer(node)]
    else if a.mode == WaitStart then [FlowState(a.peer, a.fs)]
    else []
  }

  function OnAck(a: Actor, peer: nat): Actor {
    if a.mode == WaitPrepare then a.(mode := WaitStart, peer := Some(peer)) else a
  }

  function AckSends(a: Actor): seq<Send> {
    if a.mode == WaitPrepare then [CopyFlow(a.migrateTo)] else []
  }

  function OnReject(a: Actor): Actor {
    if a.mode == WaitPrepare then a.(mode := HandlePackets, migrateTo := -1) else a
  }

  function RejectSends(a: Actor): seq<Send> {
    if a.mode == WaitPrepare then [Notify(Rejected)] else []
  }

  function OnTimeout(a: Actor): Actor {
    match a.mode
    case WaitPrepare => a.(mode := HandlePackets, migrateTo := -1)
    case WaitStart => a.(mode := HandlePackets, migrateTo := -1)
    case WaitComplete => a.(mode := Disaster)
    case WaitForMigration => a.(mode := Quit)
    case _ => a
  }

  function TimeoutSends(a: Actor): seq<Send> {
    match a.mode
    case WaitPrepare => [Notify(NotResponding)]
    case WaitStart => [StopCopying(a.migrateTo), Notify(StartLost)]
    case WaitForMigration => [Notify(TransferFailed)]
    case _ => []
  }

  function OnComplete(a: Actor): Actor {
    if a.mode == WaitComplete then a.(mode := Quit) else a
  }

  function CompleteSends(a: Actor): seq<Send> {
    if a.mode == WaitComplete then [StopSending, Notify(Succeeded)] else []
  }

  /** The target takes the flow state over and drains its buffer. */
  function OnFlowState(nf: Handler, a: Actor, fs: Flow): (Actor, seq<Action>) {
    if a.mode == WaitForMigration
    then (a.(fs := After(nf, fs, a.buffer), buffer := [], mode := HandlePackets), Actions(nf, fs, a.buffer))
    else (a, [])
  }

  function FlowStateSends(a: Actor): seq<Send> {
    if a.mode == WaitForMigration then [MigrationComplete] else []
  }

  class Nf {
    const nf: Handler
    const limits: Limits
    var mode: Mode
    var fs: Flow
    var migrateTo: int
    var peer: Option<nat>
    var counter: nat
    var buffer: seq<Packet>

    ghost function View(): Actor
      reads this
    {
      Actor(mode, fs, migrateTo, peer, counter, buffer)
    }

    constructor Source(nf: Handler, limits: Limits, fs: Flow)
      ensures this.nf == nf && this.limits == limits && View() == Actor(HandlePackets, fs, -1, None, 0, [])
    {
      this.nf, this.limits, this.fs := nf, limits, fs;
      mode, migrateTo, peer, counter, buffer := HandlePackets, -1, None, 0, [];
    }

    constructor Target(nf: Handler, limits: Limits, fs: Flow, sourceNode: int)
      ensures this.nf == nf && this.limits == limits
      ensures View() == Actor(WaitForMigration, fs, sourceNode, None, 0, [])
    {
      this.nf, this.limits, this.fs := nf, limits, fs;
      mode, migrateTo, peer, counter, buffer := WaitForMigration, sourceNode, None, 0, [];
    }

    /** The shared packet processing handler. */
    method Process(p: Packet) returns (action: Action)
      modifies `fs
      ensures (fs, action) == nf(p, old(fs))
    {
      var (next, a) := nf(p, fs);
      fs, action := next, a;
    }

    method HandlePacket(p: Packet) returns (actions: seq<Action>, sends: seq<Send>)
      modifies this
      ensures (View(), actions) == OnPacket(nf, limits, old(View()), p)
      ensures sends == PacketSends(limits, old(View()))
    {
      actions, sends := [], [];
      if Processing(mode) {
        var action := Process(p);
        actions := [action];
      } else if mode == WaitComplete {
        counter := counter + 1;
        if counter > limits.maxPacketLog {
          mode := Disaster;
        }
      } else if mode == WaitForMigration {
        if |buffer| >= limits.bufferSize {
          sends := [Notify(Overflow)];
          mode := Quit;
        } else {
          buffer := buffer + [p];
        }
      }
    }

    method HandleStartAtom(node: int) returns (sends: seq<Send>)
      modifies this
      ensures View() == OnStartAtom(old(View()), node) && sends == StartAtomSends(old(View()), node)
    {
      sends := [];
      if mode == HandlePackets {
        migrateTo := node;
        if migrateTo != -1 {
          sends := [PrepareToBuffer(migrateTo)];
          mode := WaitPrepare;
        }
      } else if mode == WaitStart {
        sends := [FlowState(peer, fs)];
        mode, counter := WaitComplete, 0;
      }
    }

    method HandleAck(peer: nat) returns (sends: seq<Send>)
      modifies this
      ensures View() == OnAck(old(View()), peer) && sends == AckSends(old(View()))
    {
      sends := [];
      if mode == WaitPrepare {
        this.peer := Some(peer);
        sends := [CopyFlow(migrateTo)];
        mode := WaitStart;
      }
    }

    method HandleReject() returns (sends: seq<Send>)
      modifies this
      ensures View() == OnReject(old(View())) && sends == RejectSends(old(View()))
    {
      sends := [];
      if mode == WaitPrepare {
        sends := [Notify(Rejected)];
        migrateTo := -1;
        mode := HandlePackets;
      }
    }

    method HandleTimeout() returns (sends: seq<Send>)
      modifies this
      ensures View() == OnTimeout(old(View())) && sends == TimeoutSends(old(View()))
    {
      sends := [];
      if mode == WaitPrepare {
        sends := [Notify(NotResponding)];
        migrateTo := -1;
        mode := HandlePackets;
      } else if mode == WaitStart {
        sends := [StopCopying(migrateTo), Notify(StartLost)];
        migrateTo := -1;
        mode := HandlePackets;
      } else if mode == WaitComplete {
        mode := Disaster;
      } else if mode == WaitForMigration {
        sends := [Notify(TransferFailed)];
        mode := Quit;
      }
    }

    method HandleComplete() returns (sends: seq<Send>)
      modifies this
      ensures View() == OnComplete(old(View())) && sends == CompleteSends(old(View()))
    {
      sends := [];
      if mode == WaitComplete {
        sends := [StopSending, Notify(Succeeded)];
        mode := Quit;
      }
    }

    method HandleFlowState(fs: Flow) returns (actions: seq<Action>, sends: seq<Send>)
      modifies this
      ensures (View(), actions) == OnFlowState(nf, old(View()), fs)
      ensures sends == FlowStateSends(old(View()))
    {
      actions, sends := [], [];
      if mode == WaitForMigration {
        sends := [MigrationComplete];
        actions := TakeOver(fs);
        mode := HandlePackets;
      }
    }

    /** The new flow state, and the loop that drains the buffer. */
    method TakeOver(fs: Flow) returns (actions: seq<Action>)
      modifies `fs, `buffer
      ensures buffer == []
      ensures this.fs == After(nf, fs, old(buffer)) && actions == Actions(nf, fs, old(buffer))
    {
      this.fs, actions := fs, [];
      ghost var done: seq<Packet> := [];
      while buffer != []
        invariant old(buffer) == done + buffer
        invariant this.fs == After(nf, fs, done) && actions == Actions(nf, fs, done)
        decreases |buffer|
      {
        var p := buffer[0];
        buffer := buffer[1..];
        OneMore(nf, fs, done, p);
        var action := Process(p);
        actions, done := actions + [action], done + [p];
      }
      assert done == old(buffer);
    }
  }
}
