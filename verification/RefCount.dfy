/**
 Strong and weak reference counting of one actor, as interleaved atomic steps of any number of
 threads: fetch-and-add, fetch-and-subtract, the weak release that first reads the counter and
 subtracts in a later step, and the compare-exchange loop that upgrades a weak reference.
 */
module RefCount {
  /** Where a thread stands inside an operation; between operations it is `Idle`. */
  datatype Pc =
    | Idle
    | DestroyData         // its fetch_sub took the strong count to zero
    | WeakCheck           // about to read weak_refs
    | WeakSub             // read something other than one, about to fetch_sub
    | FreeBlock           // about to destroy the storage
    | Upgrade(seen: nat)  // loaded strong_refs, about to compare and exchange

  /** `strong` and `weak` count the handles this thread owns. */
  datatype Thread = Thread(strong: nat, weak: nat, pc: Pc)

  /** `destroyed` and `freed` count how often the two destructors ran. */
  datatype State = State(strongRefs: nat, weakRefs: nat, destroyed: nat, freed: nat, threads: seq<Thread>)

  datatype Step =
    | CopyStrong(i: nat)
    | MakeWeak(i: nat)
    | ReleaseStrong(i: nat)
    | RunDataDtor(i: nat)
    | ReleaseWeak(i: nat)
    | LoadWeak(i: nat)
    | SubWeak(i: nat)
    | RunBlockDtor(i: nat)
    | LoadStrong(i: nat)
    | CompareExchange(i: nat, spurious: bool)
    | PassStrong(i: nat, to: nat)
    | PassWeak(i: nat, to: nat)

  /** The counters are machine words. */
  const WORD: nat := 0x1_0000_0000_0000_0000

  function FetchAdd(x: nat): nat {
    (x + 1) % WORD
  }

  function FetchSub(x: nat): nat {
    (x + WORD - 1) % WORD
  }

  function Start(n: nat): State
    requires n > 0
  {
    State(1, 1, 0, 0, [Thread(1, 0, Idle)] + seq(n - 1, _ => Thread(0, 0, Idle)))
  }

  /** What a thread must own to be allowed to make a step. */
  predicate Enabled(s: State, a: Step) {
    && a.i < |s.threads|
    && var t := s.threads[a.i];
       match a
       case CopyStrong(_) => t.pc == Idle && t.strong > 0
       case MakeWeak(_) => t.pc == Idle && (t.strong > 0 || t.weak > 0)
       case ReleaseStrong(_) => t.pc == Idle && t.strong > 0
       case RunDataDtor(_) => t.pc == DestroyData
       case ReleaseWeak(_) => t.pc == Idle && t.weak > 0
       case LoadWeak(_) => t.pc == WeakCheck
       case SubWeak(_) => t.pc == WeakSub
       case RunBlockDtor(_) => t.pc == FreeBlock
       case LoadStrong(_) => t.pc == Idle && t.weak > 0
       case CompareExchange(_, _) => t.pc.Upgrade?
       case PassStrong(_, to) => t.pc == Idle && t.strong > 0 && to < |s.threads| && to != a.i
       case PassWeak(_, to) => t.pc == Idle && t.weak > 0 && to < |s.threads| && to != a.i
  }

  function Next(s: State, a: Step): State
    requires Enabled(s, a)
  {
    var t := s.threads[a.i];
    match a
    case CopyStrong(i) =>
      s.(strongRefs := FetchAdd(s.strongRefs), threads := s.threads[i := t.(strong := t.strong + 1)])
    case MakeWeak(i) =>
      s.(weakRefs := FetchAdd(s.weakRefs), threads := s.threads[i := t.(weak := t.weak + 1)])
    case ReleaseStrong(i) =>
      s.(strongRefs := FetchSub(s.strongRefs),
      threads := s.threads[i := t.(strong := t.strong - 1, pc := if s.strongRefs == 1 then DestroyData else Idle)])
    case RunDataDtor(i) =>
      s.(destroyed := s.destroyed + 1, threads := s.threads[i := t.(pc := WeakCheck)])
    case ReleaseWeak(i) =>
      s.(threads := s.threads[i := t.(weak := t.weak - 1, pc := WeakCheck)])
    case LoadWeak(i) =>
      s.(threads := s.threads[i := t.(pc := if s.weakRefs == 1 then FreeBlock else WeakSub)])
    case SubWeak(i) =>
      s.(weakRefs := FetchSub(s.weakRefs),
      threads := s.threads[i := t.(pc := if s.weakRefs == 1 then FreeBlock else Idle)])
    case RunBlockDtor(i) =>
      s.(freed := s.freed + 1, threads := s.threads[i := t.(pc := Idle)])
    case LoadStrong(i) =>
      s.(threads := s.threads[i := t.(pc := Upgrade(s.strongRefs))])
    case CompareExchange(i, spurious) =>
      if t.pc.seen == 0 then s.(threads := s.threads[i := t.(pc := Idle)])
      else if t.pc.seen == s.strongRefs && !spurious then
        s.(strongRefs := FetchAdd(t.pc.seen), threads := s.threads[i := t.(strong := t.strong + 1, pc := Idle)])
      else s.(threads := s.threads[i := t.(pc := Upgrade(s.strongRefs))])
    case PassStrong(i, to) =>
      var u := s.threads[to];
      s.(threads := s.threads[i := t.(strong := t.strong - 1)][to := u.(strong := u.strong + 1)])
    case PassWeak(i, to) =>
      var u := s.threads[to];
      s.(threads := s.threads[i := t.(weak := t.weak - 1)][to := u.(weak := u.weak + 1)])
  }

  // ----- Ownership totals

  function Sum(ts: seq<Thread>, f: Thread -> nat): nat {
    if ts == [] then 0 else Sum(ts[..|ts| - 1], f) + f(ts[|ts| - 1])
  }

  const Strong: Thread -> nat := (t: Thread) => t.strong

  /** Weak references a thread answers for, including one it is in the middle of releasing. */
  const Weak: Thread -> nat := (t: Thread) => t.weak + (if t.pc in {DestroyData, WeakCheck, WeakSub} then 1 else 0)

  const Destroying: Thread -> nat := (t: Thread) => if t.pc == DestroyData then 1 else 0

  const Freeing: Thread -> nat := (t: Thread) => if t.pc == FreeBlock then 1 else 0

  lemma {:induction false} SumUpdate(ts: seq<Thread>, i: nat, t: Thread, f: Thread -> nat)
    requires i < |ts|
    ensures Sum(ts[i := t], f) == Sum(ts, f) - f(ts[i]) + f(t)
  {
    var k := |ts| - 1;
    if i < k {
      SumUpdate(ts[..k], i, t, f);
      assert ts[i := t][..k] == ts[..k][i := t];
    } else {
      assert ts[i := t][..k] == ts[..k];
    }
  }

  lemma {:induction false} SumAtLeast(ts: seq<Thread>, i: nat, f: Thread -> nat)
    requires i < |ts|
    ensures f(ts[i]) <= Sum(ts, f)
  {
    if i < |ts| - 1 {
      SumAtLeast(ts[..|ts| - 1], i, f);
    }
  }

  lemma {:induction false} SumOfZeros(ts: seq<Thread>, f: Thread -> nat)
    requires forall i :: 0 <= i < |ts| ==> f(ts[i]) == 0
    ensures Sum(ts, f) == 0
  {
    if ts != [] {
      SumOfZeros(ts[..|ts| - 1], f);
    }
  }

  // ----- The invariant

  /** Every owner fits into the machine word: each handle occupies memory of its own. */
  predicate FitsMemory(s: State) {
    Sum(s.threads, Strong) < WORD && Sum(s.threads, Weak) + 1 < WORD
  }

  predicate Inv(s: State) {
    var strong, weak := Sum(s.threads, Strong), Sum(s.threads, Weak);
    var destroying, freeing := Sum(s.threads, Destroying), Sum(s.threads, Freeing);
    && s.strongRefs == strong
    && s.destroyed + destroying == (if s.strongRefs == 0 then 1 else 0)
    && s.freed + freeing <= 1
    && (if s.freed + freeing == 0
        then s.weakRefs > 0 && s.weakRefs == weak + (if s.strongRefs > 0 then 1 else 0)
        else s.strongRefs == 0 && weak == 0)
    && (forall i :: 0 <= i < |s.threads| && s.threads[i].pc.Upgrade? ==> s.threads[i].weak > 0)
  }

  lemma Bump(x: nat)
    requires x + 1 < WORD
    ensures FetchAdd(x) == x + 1
    ensures FetchSub(x + 1) == x
  {
    assert (x + 1 + WORD - 1) % WORD == (x + WORD) % WORD == x;
  }

  lemma StartInv(n: nat)
    requires n > 0
    ensures Inv(Start(n))
  {
    var ts := Start(n).threads;
    var tail := seq(n - 1, _ => Thread(0, 0, Idle));
    HeadSum(Thread(1, 0, Idle), tail, Strong);
    HeadSum(Thread(1, 0, Idle), tail, Weak);
    HeadSum(Thread(1, 0, Idle), tail, Destroying);
    HeadSum(Thread(1, 0, Idle), tail, Freeing);
  }

  lemma HeadSum(t: Thread, tail: seq<Thread>, f: Thread -> nat)
    requires forall i :: 0 <= i < |tail| ==> f(tail[i]) == 0
    ensures Sum([t] + tail, f) == f(t)
  {
    if tail == [] {
      assert [t] + tail == [t];
    } else {
      var k := |tail| - 1;
      HeadSum(t, tail[..k], f);
      assert ([t] + tail)[..k + 1] == [t] + tail[..k];
    }
  }

  /** The totals after thread `i` becomes `t`. */
  lemma Totals(s: State, i: nat, t: Thread)
    requires i < |s.threads|
    ensures var ts := s.threads[i := t];
            var u := s.threads[i];
            && Sum(ts, Strong) == Sum(s.threads, Strong) - u.strong + t.strong
            && Sum(ts, Weak) == Sum(s.threads, Weak) - Weak(u) + Weak(t)
            && Sum(ts, Destroying) == Sum(s.threads, Destroying) - Destroying(u) + Destroying(t)
            && Sum(ts, Freeing) == Sum(s.threads, Freeing) - Freeing(u) + Freeing(t)
    ensures s.threads[i].strong <= Sum(s.threads, Strong)
    ensures Weak(s.threads[i]) <= Sum(s.threads, Weak)
    ensures Destroying(s.threads[i]) <= Sum(s.threads, Destroying)
    ensures Freeing(s.threads[i]) <= Sum(s.threads, Freeing)
  {
    SumUpdate(s.threads, i, t, Strong);
    SumUpdate(s.threads, i, t, Weak);
    SumUpdate(s.threads, i, t, Destroying);
    SumUpdate(s.threads, i, t, Freeing);
    SumAtLeast(s.threads, i, Strong);
    SumAtLeast(s.threads, i, Weak);
    SumAtLeast(s.threads, i, Destroying);
    SumAtLeast(s.threads, i, Freeing);
  }

  /** On the counters of a reachable state the word arithmetic does not wrap. */
  predicate NoWrap(s: State) {
    && (s.strongRefs + 1 < WORD ==> FetchAdd(s.strongRefs) == s.strongRefs + 1)
    && (s.weakRefs + 1 < WORD ==> FetchAdd(s.weakRefs) == s.weakRefs + 1)
    && (0 < s.strongRefs < WORD ==> FetchSub(s.strongRefs) == s.strongRefs - 1)
    && (0 < s.weakRefs < WORD ==> FetchSub(s.weakRefs) == s.weakRefs - 1)
  }

  lemma StepKeepsInv(s: State, a: Step)
    requires Inv(s) && Enabled(s, a) && FitsMemory(s) && FitsMemory(Next(s, a))
    ensures Inv(Next(s, a))
  {
    if s.strongRefs + 1 < WORD { Bump(s.strongRefs); }
    if s.weakRefs + 1 < WORD { Bump(s.weakRefs); }
    if 0 < s.strongRefs < WORD { Bump(s.strongRefs - 1); }
    if 0 < s.weakRefs < WORD { Bump(s.weakRefs - 1); }
    if a.PassStrong? || a.PassWeak? {
      PassKeepsInv(s, a);
    } else if a.CopyStrong? || a.ReleaseStrong? {
      StrongStepKeepsInv(s, a);
    } else if a.MakeWeak? || a.SubWeak? || a.LoadWeak? {
      WeakStepKeepsInv(s, a);
    } else if a.CompareExchange? {
      UpgradeStepKeepsInv(s, a);
    } else {
      OtherStepKeepsInv(s, a);
    }
  }

  lemma PassKeepsInv(s: State, a: Step)
    requires Inv(s) && Enabled(s, a) && (a.PassStrong? || a.PassWeak?)
    ensures Inv(Next(s, a))
  {
    var r := Next(s, a);
    PassKeepsTotals(s, a);
    assert forall i :: 0 <= i < |s.threads| ==> r.threads[i].pc == s.threads[i].pc;
  }

  lemma PassKeepsTotals(s: State, a: Step)
    requires Enabled(s, a) && (a.PassStrong? || a.PassWeak?)
    ensures var ts := Next(s, a).threads;
            && Sum(ts, Strong) == Sum(s.threads, Strong)
            && Sum(ts, Weak) == Sum(s.threads, Weak)
            && Sum(ts, Destroying) == Sum(s.threads, Destroying)
            && Sum(ts, Freeing) == Sum(s.threads, Freeing)
  {
    var ts := Next(s, a).threads;
    var mid := s.(threads := s.threads[a.i := ts[a.i]]);
    assert ts == mid.threads[a.to := ts[a.to]];
    Totals(s, a.i, ts[a.i]);
    Totals(mid, a.to, ts[a.to]);
  }

  lemma StrongStepKeepsInv(s: State, a: Step)
    requires Inv(s) && Enabled(s, a) && FitsMemory(s) && FitsMemory(Next(s, a)) && NoWrap(s)
    requires a.CopyStrong? || a.ReleaseStrong?
    ensures Inv(Next(s, a))
  {
    var r := Next(s, a);
    Totals(s, a.i, r.threads[a.i]);
    assert r.threads == s.threads[a.i := r.threads[a.i]];
  }

  lemma WeakStepKeepsInv(s: State, a: Step)
    requires Inv(s) && Enabled(s, a) && FitsMemory(s) && FitsMemory(Next(s, a)) && NoWrap(s)
    requires a.MakeWeak? || a.SubWeak? || a.LoadWeak?
    ensures Inv(Next(s, a))
  {
    var r := Next(s, a);
    Totals(s, a.i, r.threads[a.i]);
    assert r.threads == s.threads[a.i := r.threads[a.i]];
  }

  lemma OtherStepKeepsInv(s: State, a: Step)
    requires Inv(s) && Enabled(s, a) && FitsMemory(s) && FitsMemory(Next(s, a)) && NoWrap(s)
    requires a.RunDataDtor? || a.ReleaseWeak? || a.RunBlockDtor? || a.LoadStrong?
    ensures Inv(Next(s, a))
  {
    var r := Next(s, a);
    Totals(s, a.i, r.threads[a.i]);
    assert r.threads == s.threads[a.i := r.threads[a.i]];
  }

  lemma UpgradeStepKeepsInv(s: State, a: Step)
    requires Inv(s) && Enabled(s, a) && FitsMemory(s) && FitsMemory(Next(s, a)) && NoWrap(s)
    requires a.CompareExchange?
    ensures Inv(Next(s, a))
  {
    var r := Next(s, a);
    Totals(s, a.i, r.threads[a.i]);
    assert r.threads == s.threads[a.i := r.threads[a.i]];
  }

  // ----- Whole runs

  predicate StepsTo(r: State, a: Step, s: State) {
    Enabled(r, a) && s == Next(r, a) && FitsMemory(s)
  }

  /** `steps` is a run of `n` threads, the first of which created the actor; `s` is where it ends. */
  ghost predicate Reaches(n: nat, steps: seq<Step>, s: State)
    decreases |steps|
  {
    if steps == [] then n > 0 && s == Start(n)
    else
      var a := steps[|steps| - 1];
      exists r :: Reaches(n, steps[..|steps| - 1], r) && StepsTo(r, a, s)
  }

  lemma {:induction false} ReachableInv(n: nat, steps: seq<Step>, s: State)
    requires Reaches(n, steps, s)
    ensures Inv(s) && FitsMemory(s)
    decreases |steps|
  {
    if steps == [] {
      StartInv(n);
      var tail := seq(n - 1, _ => Thread(0, 0, Idle));
      HeadSum(Thread(1, 0, Idle), tail, Strong);
      HeadSum(Thread(1, 0, Idle), tail, Weak);
    } else {
      var a := steps[|steps| - 1];
      var r :| Reaches(n, steps[..|steps| - 1], r) && StepsTo(r, a, s);
      ReachableInv(n, steps[..|steps| - 1], r);
      StepKeepsInv(r, a);
    }
  }

  // ----- Main results

  /**
   In every interleaving the data is destroyed at most once, the block is freed at most once and only
   after that, and the data is destroyed or being destroyed exactly when no strong reference is left.
   */
  lemma DestructorsRunOnce(n: nat, steps: seq<Step>, s: State)
    requires Reaches(n, steps, s)
    ensures s.destroyed <= 1 && s.freed <= s.destroyed
    ensures s.strongRefs == Sum(s.threads, Strong)
    ensures s.destroyed + Sum(s.threads, Destroying) == 1 <==> s.strongRefs == 0
    ensures s.destroyed + Sum(s.threads, Destroying) == 0 <==> s.strongRefs > 0
  {
    ReachableInv(n, steps, s);
    if s.freed == 1 {
      DestroyingOwnsWeak(s.threads);
    }
  }

  lemma {:induction false} DestroyingOwnsWeak(ts: seq<Thread>)
    ensures Sum(ts, Destroying) <= Sum(ts, Weak)
  {
    if ts != [] {
      DestroyingOwnsWeak(ts[..|ts| - 1]);
    }
  }

  /** A reference protects what it refers to, whatever the other threads do. */
  lemma ReferencesProtect(n: nat, steps: seq<Step>, s: State, i: nat)
    requires Reaches(n, steps, s) && i < |s.threads|
    ensures s.threads[i].strong > 0 ==> s.destroyed == 0 && s.freed == 0 && Sum(s.threads, Destroying) == 0
    ensures s.threads[i].weak > 0 ==> s.freed == 0 && Sum(s.threads, Freeing) == 0
  {
    ReachableInv(n, steps, s);
    Totals(s, i, s.threads[i]);
  }

  /** No thread ever makes a step on a freed block, so no counter is read or written after the free. */
  lemma NoUseAfterFree(n: nat, steps: seq<Step>, s: State, a: Step)
    requires Reaches(n, steps, s) && Enabled(s, a)
    ensures s.freed == 0
    ensures a.RunDataDtor? ==> s.destroyed == 0
  {
    ReachableInv(n, steps, s);
    Totals(s, a.i, s.threads[a.i]);
  }

  /** A strong count that reached zero stays zero in every continuation: no upgrade revives the actor. */
  lemma {:induction false} NoRevival(n: nat, steps: seq<Step>, k: nat, r: State, s: State)
    requires Reaches(n, steps, s) && k <= |steps| && Reaches(n, steps[..k], r)
    requires r.strongRefs == 0
    ensures s.strongRefs == 0
    ensures forall i :: 0 <= i < |s.threads| ==> s.threads[i].strong == 0
    decreases |steps|
  {
    if k == |steps| {
      assert steps[..k] == steps;
      Deterministic(n, steps, r, s);
    } else {
      var front, a := steps[..|steps| - 1], steps[|steps| - 1];
      var q :| Reaches(n, front, q) && StepsTo(q, a, s);
      assert front[..k] == steps[..k];
      NoRevival(n, front, k, r, q);
      StaysZero(q, a);
    }
    ReachableInv(n, steps, s);
    forall i | 0 <= i < |s.threads| ensures s.threads[i].strong == 0 {
      SumAtLeast(s.threads, i, Strong);
    }
  }

  lemma StaysZero(q: State, a: Step)
    requires q.strongRefs == 0 && Enabled(q, a)
    requires forall i :: 0 <= i < |q.threads| ==> q.threads[i].strong == 0
    ensures Next(q, a).strongRefs == 0
  {
  }

  lemma {:induction false} Deterministic(n: nat, steps: seq<Step>, r: State, s: State)
    requires Reaches(n, steps, r) && Reaches(n, steps, s)
    ensures r == s
    decreases |steps|
  {
    if steps != [] {
      var front, a := steps[..|steps| - 1], steps[|steps| - 1];
      var p :| Reaches(n, front, p) && StepsTo(p, a, r);
      var q :| Reaches(n, front, q) && StepsTo(q, a, s);
      Deterministic(n, front, p, q);
    }
  }

  /** An exchange that succeeds found the strong count it had loaded, and that count was not zero. */
  lemma UpgradeIsSound(n: nat, steps: seq<Step>, s: State, a: Step)
    requires Reaches(n, steps, s) && Enabled(s, a) && a.CompareExchange? && FitsMemory(Next(s, a))
    ensures var r := Next(s, a);
            r.threads[a.i].strong > s.threads[a.i].strong ==>
              s.strongRefs > 0 && s.destroyed == 0 && r.strongRefs == s.strongRefs + 1
  {
    ReachableInv(n, steps, s);
    StepKeepsInv(s, a);
    OwnTotalsGrow(s, a);
  }

  lemma OwnTotalsGrow(s: State, a: Step)
    requires Enabled(s, a) && a.CompareExchange?
    ensures Sum(Next(s, a).threads, Strong) - Sum(s.threads, Strong)
            == Next(s, a).threads[a.i].strong - s.threads[a.i].strong
  {
    var r := Next(s, a);
    SumUpdate(s.threads, a.i, r.threads[a.i], Strong);
    assert r.threads == s.threads[a.i := r.threads[a.i]];
  }

  /** Nothing leaks: once every thread is done and owns nothing, both destructors have run. */
  lemma NothingLeaks(n: nat, steps: seq<Step>, s: State)
    requires Reaches(n, steps, s)
    requires forall i :: 0 <= i < |s.threads| ==> s.threads[i] == Thread(0, 0, Idle)
    ensures s.destroyed == 1 && s.freed == 1
  {
    ReachableInv(n, steps, s);
    SumOfZeros(s.threads, Strong);
    SumOfZeros(s.threads, Weak);
    SumOfZeros(s.threads, Destroying);
    SumOfZeros(s.threads, Freeing);
  }
}
