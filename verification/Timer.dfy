/**
 The timer actor: it keeps delayed messages in a multimap ordered by deadline, delivers the due ones
 whenever it wakes up, and inserts the ones it receives.
 */
module Timer {
  import opened Wrappers

  type Message(!new, ==)

  datatype Duration = Invalid | Seconds(count: nat) | Milliseconds(count: nat) | Microseconds(count: nat)

  /** A delayed message; `id` says how many were accepted before it. */
  datatype Entry = Entry(deadline: nat, id: nat, msg: Message)

  datatype Delivery = Delivery(entry: Entry, at: nat)

  datatype Content = Delay(d: Duration, msg: Message) | ExitMsg(reason: nat) | Other

  /**
   One turn of the loop: the clock when the loop reads it, the message `try_dequeue` returns if the
   turn gets to call it, and the clock when that message is handled.
   */
  datatype Tick = Tick(now: nat, message: Option<Content>, handledAt: nat)

  datatype State = State(stored: seq<Entry>, delivered: seq<Delivery>, accepted: seq<Entry>, exited: bool)

  const Start := State([], [], [], false)

  // ----- The handlers

  /** In microseconds; an invalid duration adds nothing. */
  function Deadline(now: nat, d: Duration): (t: nat)
    ensures t >= now
  {
    match d
    case Invalid => now
    case Seconds(n) => now + 1000000 * n
    case Milliseconds(n) => now + 1000 * n
    case Microseconds(n) => now + n
  }

  /** Insertion into a multimap: behind every entry whose key is not greater. */
  function Emplace(m: seq<Entry>, e: Entry): seq<Entry> {
    if m == [] || m[|m| - 1].deadline <= e.deadline then m + [e]
    else Emplace(m[..|m| - 1], e) + [m[|m| - 1]]
  }

  function Insert(s: State, now: nat, d: Duration, msg: Message): State {
    var e := Entry(Deadline(now, d), |s.accepted|, msg);
    s.(stored := Emplace(s.stored, e), accepted := s.accepted + [e])
  }

  function DeliverFirst(s: State, now: nat): State
    requires s.stored != []
  {
    s.(stored := s.stored[1..], delivered := s.delivered + [Delivery(s.stored[0], now)])
  }

  function DeliverDue(s: State, now: nat): State
    decreases |s.stored|
  {
    if s.stored != [] && s.stored[0].deadline <= now then DeliverDue(DeliverFirst(s, now), now) else s
  }

  function Handle(s: State, c: Content, now: nat): State {
    match c
    case Delay(d, msg) => Insert(s, now, d, msg)
    case ExitMsg(reason) => if reason != 0 then s.(exited := true) else s
    case Other => s
  }

  function Turn(s: State, t: Tick): State {
    if s.exited then s
    else
      var r := if s.stored == [] then s else DeliverDue(s, t.now);
      if t.message.Some? && (s.stored == [] || r.stored != []) then Handle(r, t.message.value, t.handledAt) else r
  }

  function Run(s: State, ticks: seq<Tick>): State
    decreases |ticks|
  {
    if ticks == [] then s else Turn(Run(s, ticks[..|ticks| - 1]), ticks[|ticks| - 1])
  }

  class TimerActor {
    var messages: seq<Entry>
    var delivered: seq<Delivery>
    var exited: bool
    ghost var accepted: seq<Entry>
    var received: nat

    ghost predicate Valid()
      reads this
    {
      received == |accepted|
    }

    ghost function View(): State
      reads this
    {
      State(messages, delivered, accepted, exited)
    }

    constructor ()
      ensures Valid() && View() == Start
    {
      messages, delivered, exited, accepted, received := [], [], false, [], 0;
    }

    method InsertDmsg(now: nat, d: Duration, msg: Message)
      requires Valid()
      modifies this
      ensures Valid() && View() == Insert(old(View()), now, d, msg)
    {
      var e := Entry(Deadline(now, d), received, msg);
      messages := Emplace(messages, e);
      received, accepted := received + 1, accepted + [e];
    }

    method Deliver(now: nat)
      requires Valid()
      modifies this
      ensures Valid() && View() == DeliverDue(old(View()), now)
    {
      while messages != [] && messages[0].deadline <= now
        invariant Valid() && DeliverDue(View(), now) == DeliverDue(old(View()), now)
        decreases |messages|
      {
        delivered := delivered + [Delivery(messages[0], now)];
        messages := messages[1..];
      }
    }

    /** The loop of `act`, for as long as the environment lets it turn. */
    method Act(ticks: seq<Tick>)
      requires Valid()
      modifies this
      ensures Valid() && View() == Run(old(View()), ticks)
    {
      for i := 0 to |ticks|
        invariant Valid() && View() == Run(old(View()), ticks[..i])
      {
        assert ticks[..i + 1][..i] == ticks[..i];
        if !exited {
          var wasEmpty := messages == [];
          if !wasEmpty {
            Deliver(ticks[i].now);
          }
          if (wasEmpty || messages != []) && ticks[i].message.Some? {
            match ticks[i].message.value {
              case Delay(d, msg) => InsertDmsg(ticks[i].handledAt, d, msg);
              case ExitMsg(reason) => if reason != 0 { exited := true; }
              case Other =>
            }
          }
        }
      }
      assert ticks[..|ticks|] == ticks;
    }
  }

  // ----- The stable sort

  /** Earlier deadline first, ties in order of arrival. */
  predicate Before(a: Entry, b: Entry) {
    a.deadline < b.deadline || (a.deadline == b.deadline && a.id < b.id)
  }

  ghost predicate Sorted(es: seq<Entry>) {
    forall i, j :: 0 <= i < j < |es| ==> Before(es[i], es[j])
  }

  /** `out` holds what `accepted` holds, by deadline and in order of arrival among equals. */
  ghost predicate StableSortOf(out: seq<Entry>, accepted: seq<Entry>) {
    Sorted(out) && multiset(out) == multiset(accepted)
  }

  /** There is only one such sequence. */
  lemma {:induction false} StableSortIsUnique(a: seq<Entry>, b: seq<Entry>, accepted: seq<Entry>)
    requires StableSortOf(a, accepted) && StableSortOf(b, accepted)
    ensures a == b
    decreases |a|
  {
    assert |a| == |multiset(a)| == |multiset(b)| == |b|;
    if a != [] {
      SameFirst(a, b);
      assert a == [a[0]] + a[1..] && b == [b[0]] + b[1..];
      assert multiset(a[1..]) == multiset(a) - multiset{a[0]};
      assert multiset(b[1..]) == multiset(b) - multiset{b[0]};
      StableSortIsUnique(a[1..], b[1..], a[1..]);
    }
  }

  lemma SameFirst(a: seq<Entry>, b: seq<Entry>)
    requires Sorted(a) && Sorted(b) && multiset(a) == multiset(b) && a != [] && b != []
    ensures a[0] == b[0]
  {
    assert a[0] in multiset(a) && b[0] in multiset(b);
    assert a[0] in b && b[0] in a;
    var i :| 0 <= i < |b| && b[i] == a[0];
    var j :| 0 <= j < |a| && a[j] == b[0];
  }

  // ----- The invariant

  function Entries(ds: seq<Delivery>): seq<Entry> {
    if ds == [] then [] else Entries(ds[..|ds| - 1]) + [ds[|ds| - 1].entry]
  }

  lemma {:induction false} EntryAt(ds: seq<Delivery>, i: nat)
    requires i < |ds|
    ensures |Entries(ds)| == |ds| && Entries(ds)[i] == ds[i].entry
  {
    if i < |ds| - 1 {
      EntryAt(ds[..|ds| - 1], i);
    } else {
      SameLength(ds[..i]);
    }
  }

  lemma {:induction false} SameLength(ds: seq<Delivery>)
    ensures |Entries(ds)| == |ds|
  {
    if ds != [] {
      SameLength(ds[..|ds| - 1]);
    }
  }

  function Output(s: State): seq<Entry> {
    Entries(s.delivered) + s.stored
  }

  /** `clock` is the latest time the actor has read. */
  ghost predicate Inv(s: State, clock: nat) {
    && StableSortOf(Output(s), s.accepted)
    && (forall i :: 0 <= i < |s.accepted| ==> s.accepted[i].id == i)
    && (forall d :: d in s.delivered ==> d.entry.deadline <= d.at <= clock)
  }

  lemma {:induction false} EmplaceSplits(m: seq<Entry>, e: Entry) returns (k: nat)
    ensures k <= |m| && Emplace(m, e) == m[..k] + [e] + m[k..]
    ensures k > 0 ==> m[k - 1].deadline <= e.deadline
    ensures forall i :: k <= i < |m| ==> m[i].deadline > e.deadline
  {
    if m == [] || m[|m| - 1].deadline <= e.deadline {
      k := |m|;
    } else {
      k := EmplaceSplits(m[..|m| - 1], e);
      assert m[..|m| - 1][..k] == m[..k];
      assert m[..|m| - 1][k..] + [m[|m| - 1]] == m[k..];
    }
  }

  lemma InsertKeepsInv(s: State, clock: nat, now: nat, d: Duration, msg: Message)
    requires Inv(s, clock) && clock <= now
    ensures Inv(Insert(s, now, d, msg), now)
  {
    var e := Entry(Deadline(now, d), |s.accepted|, msg);
    var left, right := InsertPosition(s, clock, e);
    SortedInsert(left, e, right);
    InsertedKeepsHistory(s, clock, now, e);
  }

  /** Where a new entry goes in the output: everything before it is due earlier or as early. */
  lemma InsertPosition(s: State, clock: nat, e: Entry) returns (left: seq<Entry>, right: seq<Entry>)
    requires Inv(s, clock) && clock <= e.deadline && e.id == |s.accepted|
    ensures Output(s) == left + right
    ensures Entries(s.delivered) + Emplace(s.stored, e) == left + [e] + right
    ensures forall i :: 0 <= i < |left| ==> Before(left[i], e)
    ensures forall i :: 0 <= i < |right| ==> Before(e, right[i])
  {
    var k := EmplaceSplits(s.stored, e);
    left, right := Entries(s.delivered) + s.stored[..k], s.stored[k..];
    LeftIsBefore(s, clock, k, e, left);
    Regroup(Entries(s.delivered), s.stored, k, e);
  }

  lemma Regroup(ds: seq<Entry>, m: seq<Entry>, k: nat, e: Entry)
    requires k <= |m|
    ensures ds + m == ds + m[..k] + m[k..]
    ensures ds + (m[..k] + [e] + m[k..]) == ds + m[..k] + [e] + m[k..]
  {
  }

  lemma InsertedKeepsHistory(s: State, clock: nat, now: nat, e: Entry)
    requires Inv(s, clock) && clock <= now && e.id == |s.accepted|
    ensures multiset(s.accepted + [e]) == multiset(Output(s)) + multiset{e}
    ensures forall i :: 0 <= i < |s.accepted + [e]| ==> (s.accepted + [e])[i].id == i
    ensures forall d :: d in s.delivered ==> d.entry.deadline <= d.at <= now
  {
  }

  lemma LeftIsBefore(s: State, clock: nat, k: nat, e: Entry, left: seq<Entry>)
    requires Inv(s, clock) && k <= |s.stored| && clock <= e.deadline && e.id == |s.accepted|
    requires k > 0 ==> s.stored[k - 1].deadline <= e.deadline
    requires left == Entries(s.delivered) + s.stored[..k]
    ensures forall i :: 0 <= i < |left| ==> Before(left[i], e)
  {
    IdsAreSmall(s);
    forall i | 0 <= i < |left| ensures Before(left[i], e) {
      DeadlineIsPast(s, clock, k, i);
      assert left[i] == Output(s)[i] && left[i] in Output(s);
    }
  }

  lemma SortedInsert(left: seq<Entry>, e: Entry, right: seq<Entry>)
    requires Sorted(left + right)
    requires forall i :: 0 <= i < |left| ==> Before(left[i], e)
    requires forall i :: 0 <= i < |right| ==> Before(e, right[i])
    ensures Sorted(left + [e] + right)
    ensures multiset(left + [e] + right) == multiset(left + right) + multiset{e}
  {
    var out := left + [e] + right;
    forall i, j | 0 <= i < j < |out| ensures Before(out[i], out[j]) {
      var i', j' := if i < |left| then i else i - 1, if j < |left| then j else j - 1;
      if i != |left| && j != |left| {
        assert out[i] == (left + right)[i'] && out[j] == (left + right)[j'];
      }
    }
  }

  lemma IdsAreSmall(s: State)
    requires multiset(Output(s)) == multiset(s.accepted)
    requires forall i :: 0 <= i < |s.accepted| ==> s.accepted[i].id == i
    ensures forall e :: e in Output(s) ==> e.id < |s.accepted|
  {
    forall e | e in Output(s) ensures e.id < |s.accepted| {
      assert e in multiset(Output(s));
      assert e in s.accepted;
    }
  }

  /** Whatever precedes position `k` of the stored messages is due no later than a message inserted there. */
  lemma DeadlineIsPast(s: State, clock: nat, k: nat, i: nat)
    requires Inv(s, clock) && k <= |s.stored| && i < |Entries(s.delivered)| + k
    ensures i < |Entries(s.delivered)| ==> Output(s)[i].deadline <= clock
    ensures i >= |Entries(s.delivered)| ==> Output(s)[i].deadline <= s.stored[k - 1].deadline
  {
    SameLength(s.delivered);
    if i < |s.delivered| {
      EntryAt(s.delivered, i);
      assert s.delivered[i] in s.delivered;
    } else {
      var n := |s.delivered|;
      assert Output(s)[i] == s.stored[i - n] && Output(s)[n + k - 1] == s.stored[k - 1];
      assert i < n + k - 1 ==> Before(Output(s)[i], Output(s)[n + k - 1]);
    }
  }

  lemma FirstKeepsInv(s: State, clock: nat, now: nat)
    requires Inv(s, clock) && clock <= now && s.stored != [] && s.stored[0].deadline <= now
    ensures Inv(DeliverFirst(s, now), now)
  {
    FirstKeepsOutput(s, now);
  }

  lemma FirstKeepsOutput(s: State, now: nat)
    requires s.stored != []
    ensures Output(DeliverFirst(s, now)) == Output(s)
  {
    var ds := s.delivered + [Delivery(s.stored[0], now)];
    assert ds[..|ds| - 1] == s.delivered;
    assert s.stored == [s.stored[0]] + s.stored[1..];
  }

  lemma {:induction false} DeliverKeepsInv(s: State, clock: nat, now: nat)
    requires Inv(s, clock) && clock <= now
    ensures Inv(DeliverDue(s, now), now)
    ensures forall e :: e in DeliverDue(s, now).stored ==> e.deadline > now
    ensures DeliverDue(s, now).accepted == s.accepted && DeliverDue(s, now).exited == s.exited
    decreases |s.stored|
  {
    if s.stored != [] && s.stored[0].deadline <= now {
      FirstKeepsInv(s, clock, now);
      DeliverKeepsInv(DeliverFirst(s, now), now, now);
    } else if s.stored != [] {
      FirstIsEarliest(s, clock);
    }
  }

  lemma FirstIsEarliest(s: State, clock: nat)
    requires Inv(s, clock) && s.stored != []
    ensures forall e :: e in s.stored ==> s.stored[0].deadline <= e.deadline
  {
    var n := |Entries(s.delivered)|;
    forall i | 0 <= i < |s.stored| ensures s.stored[0].deadline <= s.stored[i].deadline {
      assert s.stored[0] == Output(s)[n] && s.stored[i] == Output(s)[n + i];
      assert i > 0 ==> Before(Output(s)[n], Output(s)[n + i]);
    }
  }

  // ----- Main results

  /** The clock never runs backwards. */
  predicate Monotone(ticks: seq<Tick>) {
    && (forall i :: 0 <= i < |ticks| ==> ticks[i].now <= ticks[i].handledAt)
    && (forall i :: 0 < i < |ticks| ==> ticks[i - 1].handledAt <= ticks[i].now)
  }

  function Clock(ticks: seq<Tick>): nat {
    if ticks == [] then 0 else ticks[|ticks| - 1].handledAt
  }

  lemma {:induction false} RunInv(ticks: seq<Tick>)
    requires Monotone(ticks)
    ensures Inv(Run(Start, ticks), Clock(ticks))
    decreases |ticks|
  {
    if ticks == [] {
      assert Output(Start) == [];
    } else {
      var front, t := ticks[..|ticks| - 1], ticks[|ticks| - 1];
      RunInv(front);
      TurnKeepsInv(Run(Start, front), Clock(front), t);
    }
  }

  lemma TurnKeepsInv(s: State, clock: nat, t: Tick)
    requires Inv(s, clock) && clock <= t.now <= t.handledAt
    ensures Inv(Turn(s, t), t.handledAt)
  {
    if !s.exited {
      var r := if s.stored == [] then s else DeliverDue(s, t.now);
      if s.stored != [] {
        DeliverKeepsInv(s, clock, t.now);
      }
      if t.message.Some? {
        HandleKeepsInv(r, t.now, t.message.value, t.handledAt);
      }
    }
  }

  lemma HandleKeepsInv(s: State, clock: nat, c: Content, now: nat)
    requires Inv(s, clock) && clock <= now
    ensures Inv(Handle(s, c, now), now)
  {
    if c.Delay? {
      InsertKeepsInv(s, clock, now, c.d, c.msg);
    }
  }

  /**
   At every point of every run the delivered messages followed by the stored ones are the accepted
   messages in stable order of their deadlines: nothing is lost, duplicated or overtaken.
   */
  lemma DeliveryIsStableSort(ticks: seq<Tick>, k: nat)
    requires Monotone(ticks) && k <= |ticks|
    ensures var s := Run(Start, ticks[..k]); StableSortOf(Output(s), s.accepted)
  {
    RunInv(ticks[..k]);
  }

  /** No message is delivered before its deadline. */
  lemma NothingIsEarly(ticks: seq<Tick>, d: Delivery)
    requires Monotone(ticks) && d in Run(Start, ticks).delivered
    ensures d.entry.deadline <= d.at
  {
    RunInv(ticks);
  }

  /** A turn that finds messages leaves none behind that is due. */
  lemma NothingIsLate(ticks: seq<Tick>, t: Tick, e: Entry)
    requires Monotone(ticks + [t])
    requires var s := Run(Start, ticks); !s.exited && e in s.stored && e.deadline <= t.now
    ensures var r := Run(Start, ticks + [t]); e !in r.stored && Delivery(e, t.now) in r.delivered
  {
    var s := Run(Start, ticks);
    OneMoreTurn(ticks, t);
    RunInv(ticks);
    DueIsDelivered(s, Clock(ticks), t.now, e);
    DeliverKeepsInv(s, Clock(ticks), t.now);
    var r := DeliverDue(s, t.now);
    IdsAreSmall(s);
    assert e in Output(s);
    if t.message.Some? && r.stored != [] {
      HandleAddsNoOld(r, t.message.value, t.handledAt, e);
    }
  }

  lemma HandleAddsNoOld(r: State, c: Content, now: nat, e: Entry)
    requires e !in r.stored && e.id < |r.accepted|
    ensures e !in Handle(r, c, now).stored && Handle(r, c, now).delivered == r.delivered
  {
    if c.Delay? {
      var k := EmplaceSplits(r.stored, Entry(Deadline(now, c.d), |r.accepted|, c.msg));
    }
  }

  lemma {:induction false} DueIsDelivered(s: State, clock: nat, now: nat, e: Entry)
    requires Inv(s, clock) && clock <= now && e in s.stored && e.deadline <= now
    ensures e !in DeliverDue(s, now).stored && Delivery(e, now) in DeliverDue(s, now).delivered
    decreases |s.stored|
  {
    FirstIsEarliest(s, clock);
    FirstKeepsInv(s, clock, now);
    var r := DeliverFirst(s, now);
    if e in r.stored {
      DueIsDelivered(r, now, now, e);
    } else {
      DeliverKeepsInv(r, now, now);
      StaysDelivered(r, now, Delivery(e, now));
    }
  }

  lemma {:induction false} StaysDelivered(s: State, now: nat, d: Delivery)
    requires d in s.delivered
    ensures d in DeliverDue(s, now).delivered
    decreases |s.stored|
  {
    if s.stored != [] && s.stored[0].deadline <= now {
      StaysDelivered(DeliverFirst(s, now), now, d);
    }
  }

  /**
   A delayed message is accepted exactly when the timer waits for one: when it stores nothing, or
   stores a message that is not due yet.  Otherwise the turn ends without a dequeue.
   */
  lemma AcceptedWhenWaiting(ticks: seq<Tick>, t: Tick, d: Duration, msg: Message)
    requires Monotone(ticks + [t]) && t.message == Some(Delay(d, msg)) && !Run(Start, ticks).exited
    ensures var s := Run(Start, ticks);
            Run(Start, ticks + [t]).accepted
            == s.accepted
               + (if s.stored == [] || exists e :: e in s.stored && e.deadline > t.now
                  then [Entry(Deadline(t.handledAt, d), |s.accepted|, msg)] else [])
  {
    OneMoreTurn(ticks, t);
    RunInv(ticks);
    TurnAccepts(Run(Start, ticks), Clock(ticks), t, d, msg);
  }

  lemma OneMoreTurn(ticks: seq<Tick>, t: Tick)
    requires Monotone(ticks + [t])
    ensures Monotone(ticks) && Clock(ticks) <= t.now <= t.handledAt
    ensures Run(Start, ticks + [t]) == Turn(Run(Start, ticks), t)
  {
    var all := ticks + [t];
    assert all[..|ticks|] == ticks && all[|ticks|] == t;
    assert forall i :: 0 <= i < |ticks| ==> all[i] == ticks[i];
  }

  lemma TurnAccepts(s: State, clock: nat, t: Tick, d: Duration, msg: Message)
    requires Inv(s, clock) && clock <= t.now && t.message == Some(Delay(d, msg)) && !s.exited
    ensures Turn(s, t).accepted
            == s.accepted
               + (if s.stored == [] || exists e :: e in s.stored && e.deadline > t.now
                  then [Entry(Deadline(t.handledAt, d), |s.accepted|, msg)] else [])
  {
    if s.stored != [] {
      DeliverKeepsInv(s, clock, t.now);
      UndueStaysStored(s, t.now);
      var r := DeliverDue(s, t.now);
      if r.stored != [] {
        assert r.stored[0] in s.stored;
      }
    }
  }

  lemma {:induction false} UndueStaysStored(s: State, now: nat)
    ensures forall e :: e in DeliverDue(s, now).stored ==> e in s.stored
    ensures forall e :: e in s.stored && e.deadline > now ==> e in DeliverDue(s, now).stored
    decreases |s.stored|
  {
    if s.stored != [] && s.stored[0].deadline <= now {
      UndueStaysStored(DeliverFirst(s, now), now);
    }
  }
}
