/**
 The curl worker pool: a master that hands read requests to idle workers, and waits with a second
 behaviour on top of its behaviour stack while all of them are busy.
 */
module CurlPool {
  import opened Wrappers

  type Worker = nat

  datatype Behavior = Serving | Waiting

  /** `Job` is on its way to a worker, `Finished` on its way back to the master. */
  datatype Message = Job(w: Worker) | Finished(w: Worker)

  datatype Master = Master(idle: seq<Worker>, busy: seq<Worker>, stack: seq<Behavior>)

  datatype State = State(master: Master, mail: multiset<Message>)

  /** A client sends a read request; a worker is done with its job; the master hears of it. */
  datatype Step = Read | Perform(w: Worker) | HandleFinished(w: Worker)

  // ----- The handlers

  function IndexOf(ws: seq<Worker>, w: Worker): (i: nat)
    ensures i <= |ws| && (i < |ws| ==> ws[i] == w) && (i < |ws| <==> w in ws)
  {
    if ws == [] then 0 else if ws[0] == w then 0 else 1 + IndexOf(ws[1..], w)
  }

  /** `worker_finished`: a sender that is not busy is ignored. */
  function WorkerFinished(m: Master, w: Worker): Master {
    var i := IndexOf(m.busy, w);
    if i == |m.busy| then m else m.(idle := m.idle + [m.busy[i]], busy := m.busy[..i] + m.busy[i + 1..])
  }

  function OnFinished(m: Master, w: Worker): Master
    requires m.stack != []
  {
    var r := WorkerFinished(m, w);
    if m.stack[|m.stack| - 1] == Waiting then r.(stack := m.stack[..|m.stack| - 1]) else r
  }

  /** The read handler: `back` and `pop_back` need a worker that is idle. */
  function OnRead(m: Master): (Master, Worker)
    requires m.idle != []
  {
    var last := |m.idle| - 1;
    var idle := m.idle[..last];
    (Master(idle, m.busy + [m.idle[last]], if idle == [] then m.stack + [Waiting] else m.stack), m.idle[last])
  }

  class CurlMaster {
    var idle: seq<Worker>
    var busy: seq<Worker>
    var stack: seq<Behavior>

    ghost function View(): Master
      reads this
    {
      Master(idle, busy, stack)
    }

    constructor (numWorkers: nat)
      ensures View() == Master(Workers(numWorkers), [], [Serving])
    {
      idle, busy, stack := [], [], [Serving];
      new;
      for i := 0 to numWorkers
        invariant View() == Master(Workers(i), [], [Serving])
      {
        idle := idle + [i];
      }
    }

    method Finish(sender: Worker)
      modifies this
      ensures View() == WorkerFinished(old(View()), sender)
    {
      var i := 0;
      while i < |busy| && busy[i] != sender
        invariant i <= |busy| && View() == old(View())
        invariant IndexOf(busy, sender) == i + IndexOf(busy[i..], sender)
      {
        i := i + 1;
      }
      if i < |busy| {
        idle := idle + [busy[i]];
        busy := busy[..i] + busy[i + 1..];
      }
    }

    method HandleRead() returns (worker: Worker)
      requires idle != []
      modifies this
      ensures (View(), worker) == OnRead(old(View()))
    {
      worker := idle[|idle| - 1];
      idle := idle[..|idle| - 1];
      busy := busy + [worker];
      if idle == [] {
        stack := stack + [Waiting];
      }
    }

    method HandleFinished(sender: Worker)
      requires stack != []
      modifies this
      ensures View() == OnFinished(old(View()), sender)
    {
      Finish(sender);
      if stack[|stack| - 1] == Waiting {
        stack := stack[..|stack| - 1];
      }
    }
  }

  // ----- The system

  function Workers(n: nat): (ws: seq<Worker>)
    ensures |ws| == n && forall i :: 0 <= i < n ==> ws[i] == i
  {
    if n == 0 then [] else Workers(n - 1) + [n - 1]
  }

  function Start(n: nat): State {
    State(Master(Workers(n), [], [Serving]), multiset{})
  }

  predicate IsServing(m: Master) {
    m.stack != [] && m.stack[|m.stack| - 1] == Serving
  }

  /** A read request that finds the waiting behaviour on top is dropped by the default handler. */
  predicate Enabled(s: State, a: Step) {
    match a
    case Read => true
    case Perform(w) => Job(w) in s.mail
    case HandleFinished(w) => Finished(w) in s.mail
  }

  /** `None` stands for popping an empty list. */
  function Next(s: State, a: Step): Option<State>
    requires Enabled(s, a)
  {
    match a
    case Read =>
      if !IsServing(s.master) then Some(s)
      else if s.master.idle == [] then None
      else
        var (m, w) := OnRead(s.master);
        Some(State(m, s.mail + multiset{Job(w)}))
    case Perform(w) => Some(s.(mail := s.mail - multiset{Job(w)} + multiset{Finished(w)}))
    case HandleFinished(w) =>
      if s.master.stack == [] then None
      else Some(State(OnFinished(s.master, w), s.mail - multiset{Finished(w)}))
  }

  // ----- The invariant

  predicate Outstanding(s: State, w: Worker) {
    s.mail[Job(w)] + s.mail[Finished(w)] == if w in s.master.busy then 1 else 0
  }

  ghost predicate Inv(n: nat, s: State) {
    && Listed(s.master) == multiset(Workers(n))
    && (forall w: Worker :: Outstanding(s, w))
    && s.master.stack == if s.master.idle == [] then [Serving, Waiting] else [Serving]
  }

  lemma {:induction false} WorkersAreDistinct(n: nat, w: Worker)
    ensures multiset(Workers(n))[w] == if w < n then 1 else 0
  {
    if n > 0 {
      WorkersAreDistinct(n - 1, w);
    }
  }

  /** No worker is listed twice, in one list or in both. */
  lemma ListedOnce(n: nat, s: State, w: Worker)
    requires Listed(s.master) == multiset(Workers(n))
    ensures multiset(s.master.idle)[w] + multiset(s.master.busy)[w] == if w < n then 1 else 0
  {
    WorkersAreDistinct(n, w);
    assert Listed(s.master)[w] == multiset(s.master.idle)[w] + multiset(s.master.busy)[w];
  }

  function Listed(m: Master): multiset<Worker> {
    multiset(m.idle) + multiset(m.busy)
  }

  lemma ReadMoves(m: Master)
    requires m.idle != []
    ensures var (r, w) := OnRead(m);
            && Listed(r) == Listed(m) && w in multiset(m.idle)
            && r.busy == m.busy + [w]
  {
    var last := |m.idle| - 1;
    assert m.idle == m.idle[..last] + [m.idle[last]];
  }

  lemma ReadKeepsInv(n: nat, s: State)
    requires Inv(n, s) && IsServing(s.master)
    ensures s.master.idle != []
    ensures Next(s, Read).Some? && Inv(n, Next(s, Read).value)
  {
    var r := Next(s, Read).value;
    var w := OnRead(s.master).1;
    ReadMoves(s.master);
    ListedOnce(n, s, w);
    forall x: Worker ensures Outstanding(r, x) {
      assert Outstanding(s, x);
      ReadKeepsOutstanding(s, r, w, x);
    }
  }

  lemma ReadKeepsOutstanding(s: State, r: State, w: Worker, x: Worker)
    requires Outstanding(s, x) && r.mail == s.mail + multiset{Job(w)}
    requires r.master.busy == s.master.busy + [w] && multiset(s.master.busy)[w] == 0
    ensures Outstanding(r, x)
  {
    assert w in s.master.busy ==> w in multiset(s.master.busy);
  }

  /** A finished worker that is busy moves to the end of the idle list. */
  lemma FinishedMoves(m: Master, w: Worker)
    requires w in m.busy
    ensures var r := WorkerFinished(m, w);
            && Listed(r) == Listed(m)
            && r.idle == m.idle + [w] && multiset(r.busy) == multiset(m.busy) - multiset{w}
  {
    var i := IndexOf(m.busy, w);
    assert m.busy == m.busy[..i] + [w] + m.busy[i + 1..];
  }

  lemma FinishedKeepsInv(n: nat, s: State, w: Worker)
    requires Inv(n, s) && Finished(w) in s.mail
    ensures w in s.master.busy
    ensures Next(s, HandleFinished(w)).Some? && Inv(n, Next(s, HandleFinished(w)).value)
  {
    var r := Next(s, HandleFinished(w)).value;
    assert Outstanding(s, w);
    MasterServesAgain(s.master, w);
    FinishedKeepsMessages(n, s, r, w);
  }

  lemma MasterServesAgain(m: Master, w: Worker)
    requires w in m.busy && m.stack == if m.idle == [] then [Serving, Waiting] else [Serving]
    ensures var r := OnFinished(m, w);
            && Listed(r) == Listed(m) && multiset(r.busy) == multiset(m.busy) - multiset{w}
            && r.idle != [] && r.stack == [Serving]
  {
    FinishedMoves(m, w);
  }

  lemma FinishedKeepsMessages(n: nat, s: State, r: State, w: Worker)
    requires Listed(s.master) == multiset(Workers(n)) && w in s.master.busy && Finished(w) in s.mail
    requires forall x: Worker :: Outstanding(s, x)
    requires r.mail == s.mail - multiset{Finished(w)}
    requires multiset(r.master.busy) == multiset(s.master.busy) - multiset{w}
    ensures forall x: Worker :: Outstanding(r, x)
  {
    ListedOnce(n, s, w);
    assert w in multiset(s.master.busy);
    forall x: Worker ensures Outstanding(r, x) {
      assert Outstanding(s, x);
      FinishedKeepsOutstanding(s, r, w, x);
    }
  }

  lemma FinishedKeepsOutstanding(s: State, r: State, w: Worker, x: Worker)
    requires Outstanding(s, x) && Finished(w) in s.mail && r.mail == s.mail - multiset{Finished(w)}
    requires multiset(r.master.busy) == multiset(s.master.busy) - multiset{w} && multiset(s.master.busy)[w] == 1
    ensures Outstanding(r, x)
  {
    assert x in r.master.busy <==> x in multiset(r.master.busy);
    assert x in s.master.busy <==> x in multiset(s.master.busy);
  }

  lemma StepKeepsInv(n: nat, s: State, a: Step)
    requires Inv(n, s) && Enabled(s, a)
    ensures Next(s, a).Some? && Inv(n, Next(s, a).value)
  {
    match a
    case Read => if IsServing(s.master) { ReadKeepsInv(n, s); }
    case Perform(w) =>
      var r := Next(s, a).value;
      forall x: Worker ensures Outstanding(r, x) {
        assert Outstanding(s, x);
      }
    case HandleFinished(w) => FinishedKeepsInv(n, s, w);
  }

  // ----- Whole runs

  predicate StepsTo(r: State, a: Step, s: State) {
    Enabled(r, a) && Next(r, a) == Some(s)
  }

  ghost predicate Reaches(n: nat, steps: seq<Step>, s: State)
    decreases |steps|
  {
    if steps == [] then s == Start(n)
    else
      var a := steps[|steps| - 1];
      exists r :: Reaches(n, steps[..|steps| - 1], r) && StepsTo(r, a, s)
  }

  lemma {:induction false} ReachableInv(n: nat, steps: seq<Step>, s: State)
    requires n > 0 && Reaches(n, steps, s)
    ensures Inv(n, s)
    decreases |steps|
  {
    if steps != [] {
      var front, a := steps[..|steps| - 1], steps[|steps| - 1];
      var r :| Reaches(n, front, r) && StepsTo(r, a, s);
      ReachableInv(n, front, r);
      StepKeepsInv(n, r, a);
    }
  }

  // ----- Main results

  /** Every worker is idle or busy, and exactly once. */
  lemma IdleAndBusyPartition(n: nat, steps: seq<Step>, s: State, w: Worker)
    requires n > 0 && Reaches(n, steps, s)
    ensures multiset(s.master.idle)[w] + multiset(s.master.busy)[w] == if w < n then 1 else 0
  {
    ReachableInv(n, steps, s);
    ListedOnce(n, s, w);
  }

  /** A busy worker has exactly one job or completion under way, any other worker none. */
  lemma OneMessagePerBusyWorker(n: nat, steps: seq<Step>, s: State, w: Worker)
    requires n > 0 && Reaches(n, steps, s)
    ensures s.mail[Job(w)] + s.mail[Finished(w)] == if w in s.master.busy then 1 else 0
  {
    ReachableInv(n, steps, s);
    assert Outstanding(s, w);
  }

  /** The waiting behaviour is on top exactly when nobody is idle, and never more than once. */
  lemma WaitingMeansNobodyIdle(n: nat, steps: seq<Step>, s: State)
    requires n > 0 && Reaches(n, steps, s)
    ensures s.master.stack == if s.master.idle == [] then [Serving, Waiting] else [Serving]
  {
    ReachableInv(n, steps, s);
  }

  /**
   No step of any run pops an empty list, exactly when there is at least one worker; the source has
   ten.  A pool without workers fails on its first request.
   */
  lemma NeverPopsEmptyIff(n: nat)
    ensures n > 0 <==> forall steps, s, a :: Reaches(n, steps, s) && Enabled(s, a) ==> Next(s, a).Some?
  {
    if n > 0 {
      forall steps, s, a | Reaches(n, steps, s) && Enabled(s, a) ensures Next(s, a).Some? {
        ReachableInv(n, steps, s);
        StepKeepsInv(n, s, a);
      }
    } else {
      assert Reaches(n, [], Start(n)) && Enabled(Start(n), Read) && Next(Start(n), Read) == None;
    }
  }
}
