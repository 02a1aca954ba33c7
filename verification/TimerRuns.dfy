/** What durations are worth to the timer, and when it stops. */
module TimerRuns {
  import opened Wrappers
  import opened Timer

  /** The units agree, a microsecond is the unit of the clock, and an invalid duration adds nothing. */
  lemma DurationsAgree(now: nat, n: nat)
    ensures Deadline(now, Microseconds(n)) == now + n && Deadline(now, Invalid) == now
    ensures Deadline(now, Seconds(n)) == Deadline(now, Milliseconds(1000 * n))
    ensures Deadline(now, Milliseconds(n)) == Deadline(now, Microseconds(1000 * n))
  {
  }

  /** The turn takes its message: nothing is stored, or something that is not due yet. */
  ghost predicate Waits(s: State, t: Tick) {
    s.stored == [] || exists e :: e in s.stored && e.deadline > t.now
  }

  /** The timer stops exactly when it takes an exit message that gives a reason, and never starts again. */
  lemma StopsOnExit(ticks: seq<Tick>, t: Tick)
    requires Monotone(ticks + [t])
    ensures Run(Start, ticks + [t]).exited
            <==> Run(Start, ticks).exited
                 || (Waits(Run(Start, ticks), t) && t.message.Some? && t.message.value.ExitMsg?
                     && t.message.value.reason != 0)
    ensures Run(Start, ticks).exited ==> Run(Start, ticks + [t]) == Run(Start, ticks)
  {
    OneMoreTurn(ticks, t);
    RunInv(ticks);
    TurnStops(Run(Start, ticks), Clock(ticks), t);
  }

  lemma TurnStops(s: State, clock: nat, t: Tick)
    requires Inv(s, clock) && clock <= t.now
    ensures Turn(s, t).exited
            <==> s.exited
                 || (Waits(s, t) && t.message.Some? && t.message.value.ExitMsg? && t.message.value.reason != 0)
  {
    if !s.exited && s.stored != [] {
      DeliverKeepsInv(s, clock, t.now);
      UndueStaysStored(s, t.now);
      RestIsUndue(s, clock, t);
    }
  }

  lemma RestIsUndue(s: State, clock: nat, t: Tick)
    requires Inv(s, clock) && clock <= t.now && s.stored != []
    ensures DeliverDue(s, t.now).stored != [] <==> Waits(s, t)
  {
    DeliverKeepsInv(s, clock, t.now);
    UndueStaysStored(s, t.now);
    var r := DeliverDue(s, t.now);
    if r.stored != [] {
      assert r.stored[0] in r.stored;
    }
  }
}
