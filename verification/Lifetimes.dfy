/**
 What single steps do to handles, when an upgrade succeeds or gives up, and that the threads can always
 release everything.
 */
module Lifetimes {
  import opened RefCount
  import opened Paths

  // ----- What the steps do to handles

  /** The handles of thread `j` after a step, without looking at the counters. */
  function HandlesAfter(a: Step, j: nat, t: Thread, upgrades: bool): (int, int) {
    match a
    case CopyStrong(i) => if i == j then (t.strong + 1, t.weak) else (t.strong, t.weak)
    case MakeWeak(i) => if i == j then (t.strong, t.weak + 1) else (t.strong, t.weak)
    case ReleaseStrong(i) => if i == j then (t.strong - 1, t.weak) else (t.strong, t.weak)
    case ReleaseWeak(i) => if i == j then (t.strong, t.weak - 1) else (t.strong, t.weak)
    case CompareExchange(i, _) => if i == j && upgrades then (t.strong + 1, t.weak) else (t.strong, t.weak)
    case PassStrong(i, to) =>
      if i == j then (t.strong - 1, t.weak) else if to == j then (t.strong + 1, t.weak) else (t.strong, t.weak)
    case PassWeak(i, to) =>
      if i == j then (t.strong, t.weak - 1) else if to == j then (t.strong, t.weak + 1) else (t.strong, t.weak)
    case _ => (t.strong, t.weak)
  }

  /** The exchange finds the count it has loaded, which is not zero, and does not fail by accident. */
  predicate Upgrades(s: State, a: Step)
    requires Enabled(s, a)
  {
    a.CompareExchange? && !a.spurious && s.threads[a.i].pc.seen == s.strongRefs > 0
  }

  /** Every step gives, takes or moves exactly the handles its name says; the counters count them. */
  lemma StepMovesHandles(n: nat, steps: seq<Step>, s: State, a: Step, j: nat)
    requires Reaches(n, steps, s) && Enabled(s, a) && FitsMemory(Next(s, a)) && j < |s.threads|
    ensures var r := Next(s, a);
            && |r.threads| == |s.threads|
            && (r.threads[j].strong, r.threads[j].weak) == HandlesAfter(a, j, s.threads[j], Upgrades(s, a))
            && r.strongRefs == Sum(r.threads, Strong)
  {
    ReachableInv(n, steps, s);
    StepKeepsInv(s, a);
    ThreadStep(s, a, j);
  }

  lemma ThreadStep(s: State, a: Step, j: nat)
    requires Enabled(s, a) && j < |s.threads|
    ensures var r := Next(s, a);
            && |r.threads| == |s.threads|
            && (r.threads[j].strong, r.threads[j].weak) == HandlesAfter(a, j, s.threads[j], Upgrades(s, a))
  {
    if a.PassStrong? || a.PassWeak? {
      PassStep(s, a, j);
    } else {
      OwnStep(s, a, j);
    }
  }

  lemma PassStep(s: State, a: Step, j: nat)
    requires Enabled(s, a) && j < |s.threads| && (a.PassStrong? || a.PassWeak?)
    ensures var r := Next(s, a);
            && |r.threads| == |s.threads|
            && (r.threads[j].strong, r.threads[j].weak) == HandlesAfter(a, j, s.threads[j], false)
  {
  }

  lemma OwnStep(s: State, a: Step, j: nat)
    requires Enabled(s, a) && j < |s.threads| && !a.PassStrong? && !a.PassWeak?
    ensures var r := Next(s, a);
            && r.threads == s.threads[a.i := r.threads[a.i]]
            && (r.threads[j].strong, r.threads[j].weak) == HandlesAfter(a, j, s.threads[j], Upgrades(s, a))
  {
  }

  // ----- Upgrades

  /** A thread that has loaded zero has found a dead actor, and the actor stays dead. */
  lemma {:induction false} ZeroMeansDead(n: nat, steps: seq<Step>, s: State, i: nat)
    requires Reaches(n, steps, s) && i < |s.threads| && s.threads[i].pc == Upgrade(0)
    ensures s.strongRefs == 0
    decreases |steps|
  {
    if steps != [] {
      var front, a := steps[..|steps| - 1], steps[|steps| - 1];
      var r :| Reaches(n, front, r) && StepsTo(r, a, s);
      ReachableInv(n, front, r);
      if r.threads[i].pc == Upgrade(0) {
        ZeroMeansDead(n, front, r, i);
        if a.CopyStrong? { SumAtLeast(r.threads, a.i, Strong); }
        if a.ReleaseStrong? { SumAtLeast(r.threads, a.i, Strong); }
      }
    }
  }

  /**
   An exchange adds one strong reference exactly when it does not fail by accident and finds the count
   it has loaded, which is not zero. It gives up only on a dead actor, and tries again otherwise.
   */
  lemma UpgradeIsExact(n: nat, steps: seq<Step>, s: State, a: Step)
    requires Reaches(n, steps, s) && Enabled(s, a) && a.CompareExchange? && FitsMemory(Next(s, a))
    ensures var r, seen := Next(s, a), s.threads[a.i].pc.seen;
            var t, u := s.threads[a.i], r.threads[a.i];
            && u.weak == t.weak
            && (u.strong == t.strong + 1 || u.strong == t.strong)
            && (u.strong == t.strong + 1 <==> !a.spurious && seen == s.strongRefs && seen > 0)
            && (u.strong == t.strong + 1 ==> u.pc == Idle && r.strongRefs == s.strongRefs + 1)
            && (u.strong == t.strong && u.pc == Idle ==> s.strongRefs == 0)
            && (u.strong == t.strong && u.pc != Idle ==> u.pc == Upgrade(s.strongRefs) && r == s.(threads := r.threads))
  {
    StepMovesHandles(n, steps, s, a, a.i);
    if s.threads[a.i].pc.seen == 0 { ZeroMeansDead(n, steps, s, a.i); }
    ReachableInv(n, steps, s);
    StepKeepsInv(s, a);
    OwnTotalsGrow(s, a);
  }

  // ----- Releases

  /** A weak release goes on to free the block exactly when it gives up the last reference of all. */
  lemma WeakReleaseIsExact(n: nat, steps: seq<Step>, s: State, a: Step)
    requires Reaches(n, steps, s) && Enabled(s, a) && (a.LoadWeak? || a.SubWeak?)
    ensures Next(s, a).threads[a.i].pc == FreeBlock <==> s.strongRefs == 0 && Sum(s.threads, Weak) == 1
    ensures Next(s, a).threads[a.i].pc == Idle <==> a.SubWeak? && s.strongRefs + Sum(s.threads, Weak) > 1
  {
    ReachableInv(n, steps, s);
    Totals(s, a.i, s.threads[a.i]);
  }

  /** A strong release goes on to destroy the data exactly when it gives up the last strong reference. */
  lemma StrongReleaseIsExact(n: nat, steps: seq<Step>, s: State, i: nat)
    requires Reaches(n, steps, s) && Enabled(s, ReleaseStrong(i))
    ensures Next(s, ReleaseStrong(i)).threads[i].pc == DestroyData <==> Sum(s.threads, Strong) == 1
    ensures Next(s, ReleaseStrong(i)).threads[i].pc in {DestroyData, Idle}
  {
    ReachableInv(n, steps, s);
  }

  // ----- Everything can be released

  ghost function Protocol(): (State, Step, State) -> bool {
    (r: State, a: Step, s: State) => StepsTo(r, a, s)
  }

  /** The paths from the initial state are the runs. */
  lemma {:induction false} PathIsRun(n: nat, steps: seq<Step>, t: State)
    requires n > 0 && Path(Protocol(), Start(n), steps, t)
    ensures Reaches(n, steps, t)
    decreases |steps|
  {
    if steps != [] {
      var r := LastStep(Protocol(), Start(n), steps, t);
      PathIsRun(n, steps[..|steps| - 1], r);
    } else {
      var states :| IsPath(Protocol(), states, Start(n), steps, t);
    }
  }

  lemma {:induction false} RunIsPath(n: nat, steps: seq<Step>, t: State)
    requires Reaches(n, steps, t)
    ensures n > 0 && Path(Protocol(), Start(n), steps, t)
    decreases |steps|
  {
    if steps == [] {
      EmptyPath(Protocol(), t);
    } else {
      var k := |steps| - 1;
      var r :| Reaches(n, steps[..k], r) && StepsTo(r, steps[k], t);
      RunIsPath(n, steps[..k], r);
      LongerPath(Protocol(), Start(n), steps, r, t);
    }
  }

  /** One more handle of each kind would still fit into memory. */
  predicate Room(s: State) {
    Sum(s.threads, Strong) + 1 < WORD && Sum(s.threads, Weak) + 2 < WORD
  }

  /** The most handles thread `i` can be answerable for on its way to owning nothing. */
  predicate RoomFor(s: State, i: nat)
    requires i < |s.threads|
  {
    var t := s.threads[i];
    var strong, weak := if t.pc.Upgrade? then 1 else 0, if t.strong > 0 || t.pc.Upgrade? then 1 else 0;
    Sum(s.threads, Strong) + strong < WORD && Sum(s.threads, Weak) + weak + 1 < WORD
  }

  /** How many steps, at most, bring thread `i` to owning nothing. */
  function Work(s: State, i: nat): nat
    requires i < |s.threads|
  {
    6 * s.threads[i].strong + 5 * s.threads[i].weak + PcWork(s.threads[i].pc, s.strongRefs)
  }

  function PcWork(pc: Pc, strongRefs: nat): nat {
    match pc
    case Idle => 0
    case DestroyData => 5
    case WeakCheck => 3
    case WeakSub => 2
    case FreeBlock => 1
    case Upgrade(seen) => if seen == strongRefs then 7 else 8
  }

  /** The step thread `i` takes to get rid of what it owns. */
  function NextStep(s: State, i: nat): Step
    requires i < |s.threads| && Work(s, i) > 0
  {
    var t := s.threads[i];
    match t.pc
    case DestroyData => RunDataDtor(i)
    case WeakCheck => LoadWeak(i)
    case WeakSub => SubWeak(i)
    case FreeBlock => RunBlockDtor(i)
    case Upgrade(_) => CompareExchange(i, false)
    case Idle => if t.strong > 0 then ReleaseStrong(i) else ReleaseWeak(i)
  }

  lemma NextStepWorks(s: State, i: nat) returns (r: State)
    requires Inv(s) && FitsMemory(s) && i < |s.threads| && Work(s, i) > 0 && RoomFor(s, i)
    ensures StepsTo(s, NextStep(s, i), r) && Inv(r) && FitsMemory(r)
    ensures r.threads == s.threads[i := r.threads[i]] && RoomFor(r, i) && Work(r, i) < Work(s, i)
  {
    var a := NextStep(s, i);
    r := Next(s, a);
    NextStepMoves(s, i, r);
    NextStepFits(s, i, r);
    StepKeepsInv(s, a);
  }

  /** What remains for thread `i` after its next step. */
  lemma NextStepMoves(s: State, i: nat, r: State)
    requires Inv(s) && i < |s.threads| && Work(s, i) > 0
    requires Enabled(s, NextStep(s, i)) && r == Next(s, NextStep(s, i))
    requires s.strongRefs + 1 < WORD || !s.threads[i].pc.Upgrade?
    ensures r.threads == s.threads[i := r.threads[i]] && Work(r, i) < Work(s, i)
  {
  }

  lemma NextStepFits(s: State, i: nat, r: State)
    requires Inv(s) && FitsMemory(s) && i < |s.threads| && Work(s, i) > 0 && RoomFor(s, i)
    requires Enabled(s, NextStep(s, i)) && r == Next(s, NextStep(s, i))
    ensures FitsMemory(r) && RoomFor(r, i)
  {
    assert r.threads == s.threads[i := r.threads[i]];
    Totals(s, i, r.threads[i]);
  }

  const Done: Thread := Thread(0, 0, Idle)

  lemma {:induction false} SettleThread(s: State, i: nat) returns (steps: seq<Step>, t: State)
    requires Inv(s) && FitsMemory(s) && i < |s.threads| && RoomFor(s, i)
    ensures Path(Protocol(), s, steps, t) && Inv(t) && FitsMemory(t) && t.threads == s.threads[i := Done]
    decreases Work(s, i)
  {
    if Work(s, i) == 0 {
      assert s.threads[i] == Done && s.threads[i := Done] == s.threads;
      steps, t := [], s;
      EmptyPath(Protocol(), s);
    } else {
      var r := NextStepWorks(s, i);
      OneStep(Protocol(), s, NextStep(s, i), r);
      var more, u := SettleThread(r, i);
      JoinPaths(Protocol(), s, [NextStep(s, i)], r, more, u);
      steps, t := [NextStep(s, i)] + more, u;
    }
  }

  lemma RoomRemains(s: State, i: nat, t: State)
    requires i < |s.threads| && t.threads == s.threads[i := Done] && Room(s)
    ensures Room(t) && (forall j :: 0 <= j < |t.threads| ==> RoomFor(t, j))
  {
    Totals(s, i, Done);
  }

  lemma {:induction false} SettleAll(s: State, k: nat) returns (steps: seq<Step>, t: State)
    requires Inv(s) && FitsMemory(s) && k <= |s.threads| && Room(s)
    ensures Path(Protocol(), s, steps, t) && Inv(t) && FitsMemory(t) && Room(t) && |t.threads| == |s.threads|
    ensures forall j :: 0 <= j < k ==> t.threads[j] == Done
    decreases k
  {
    if k == 0 {
      steps, t := [], s;
      EmptyPath(Protocol(), s);
    } else {
      var first, r := SettleAll(s, k - 1);
      var rest, u := SettleThread(r, k - 1);
      RoomRemains(r, k - 1, u);
      JoinPaths(Protocol(), s, first, r, rest, u);
      steps, t := first + rest, u;
    }
  }

  /**
   From every reachable state with room for one more handle, the threads can finish what they do and
   release what they own; then the data has been destroyed once and the block freed once.
   */
  lemma CanAlwaysFinish(n: nat, steps: seq<Step>, s: State) returns (more: seq<Step>, t: State)
    requires Reaches(n, steps, s) && Room(s)
    ensures Reaches(n, steps + more, t)
    ensures forall j :: 0 <= j < |t.threads| ==> t.threads[j] == Done
    ensures t.destroyed == 1 && t.freed == 1
  {
    ReachableInv(n, steps, s);
    more, t := SettleAll(s, |s.threads|);
    RunIsPath(n, steps, s);
    JoinPaths(Protocol(), Start(n), steps, s, more, t);
    PathIsRun(n, steps + more, t);
    NothingLeaks(n, steps + more, t);
  }
}
