/**
 What the philosophers get to do: they follow the state diagram of the example, two answers decide
 whether a hungry one eats, and in every reachable state everyone can still get to eat.
 */
module Dinner {
  import opened Wrappers
  import opened Philosophers
  import opened Paths

  // ----- The state diagram

  datatype Event = Think | Eat | Got | Busy

  function EventOf(m: Message): Event
    requires ToPhilosopher(m)
  {
    if m.Think? then Event.Think else if m.Eat? then Event.Eat else if m.result then Got else Busy
  }

  /** The arrows of the diagram, and the one from the initial behaviour. */
  predicate Arrow(from: Behavior, e: Event, to: Behavior) {
    match (from, e)
    case (Init, Think) => to == Thinking
    case (Thinking, Eat) => to == Hungry
    case (Hungry, Busy) => to == Denied
    case (Hungry, Got) => to == Granted
    case (Granted, Busy) => to == Thinking
    case (Granted, Got) => to == Eating
    case (Denied, Busy) => to == Thinking
    case (Denied, Got) => to == Thinking
    case (Eating, Think) => to == Thinking
    case _ => false
  }

  lemma ReactionIsArrow(id: nat, left: nat, right: nat, b: Behavior, m: Message)
    requires ToPhilosopher(m) && React(id, left, right, b, m).Become?
    ensures Arrow(b, EventOf(m), React(id, left, right, b, m).next)
  {
  }

  /** In every run a philosopher moves along an arrow when it gets a message, and else stays. */
  lemma FollowsDiagram(n: nat, ms: seq<Message>, r: State, m: Message, s: State, p: nat)
    requires Reaches(n, ms, r) && Steps(n, r, m, s) && p < n
    ensures |s.phil| == n && |r.phil| == n
    ensures if ToPhilosopher(m) && m.to == p then Arrow(r.phil[p], EventOf(m), s.phil[p])
            else s.phil[p] == r.phil[p]
  {
    if ToPhilosopher(m) {
      NothingIsSkipped(n, ms, r, m);
      ReactionIsArrow(m.to, m.to, Right(n, m.to), r.phil[m.to], m);
    }
  }

  // ----- Two answers

  function Answer(n: nat, p: nat, left: bool, result: bool): Message
    requires p < n
  {
    Taken(if left then p else Right(n, p), p, result)
  }

  /** What a philosopher sends once both answers have come. */
  function Outcome(n: nat, p: nat, left: bool, right: bool): multiset<Message>
    requires p < n
  {
    if left && right then multiset{Message.Think(p)}
    else multiset{Message.Eat(p)}
         + (if left then multiset{Put(p, p)} else multiset{})
         + (if right then multiset{Put(p, Right(n, p))} else multiset{})
  }

  /**
   Two answers, in either order: with both chopsticks the philosopher eats, otherwise it thinks and puts
   down what it got.
   */
  lemma TwoAnswers(n: nat, ms: seq<Message>, s: State, p: nat, left: bool, right: bool, leftFirst: bool)
    requires Reaches(n, ms, s) && p < n
    requires Sized(n, s) && s.phil[p] == Hungry
    requires Answer(n, p, true, left) in s.mail && Answer(n, p, false, right) in s.mail
    ensures var a, b := Answer(n, p, true, left), Answer(n, p, false, right);
            var r := Deliver(n, s, if leftFirst then a else b);
            Sized(n, r)
            && var t := Deliver(n, r, if leftFirst then b else a);
               && t.user == s.user
               && t.phil == s.phil[p := if left && right then Eating else Thinking]
               && t.mail == s.mail - multiset{a} - multiset{b} + Outcome(n, p, left, right)
  {
    var a, b := Answer(n, p, true, left), Answer(n, p, false, right);
    if leftFirst {
      FirstThenSecond(n, s, p, a, b);
    } else {
      FirstThenSecond(n, s, p, b, a);
      assert s.mail - multiset{a} - multiset{b} == s.mail - multiset{b} - multiset{a};
    }
    assert Reply(p, a, b) == Outcome(n, p, left, right) == Reply(p, b, a);
  }

  lemma FirstReply(n: nat, s: State, p: nat, a: Message)
    requires Sized(n, s) && p < n && s.phil[p] == Hungry
    requires a.Taken? && a.to == p && Adjacent(n, p, a.stick) && a in s.mail
    ensures Deliver(n, s, a)
            == State(s.phil[p := if a.result then Granted else Denied], s.user, s.mail - multiset{a})
  {
    assert s.mail - multiset{a} + multiset{} == s.mail - multiset{a};
  }

  /** What follows the second answer, `b`, when the first one was `a`. */
  function Reply(p: nat, a: Message, b: Message): multiset<Message>
    requires a.Taken? && b.Taken?
  {
    if a.result && b.result then multiset{Message.Think(p)}
    else if a.result then multiset{Put(p, a.stick), Message.Eat(p)}
    else if b.result then multiset{Put(p, b.stick), Message.Eat(p)}
    else multiset{Message.Eat(p)}
  }

  lemma SecondReply(n: nat, s: State, p: nat, a: Message, b: Message)
    requires Sized(n, s) && p < n && a.Taken? && b.Taken? && b.to == p
    requires Adjacent(n, p, a.stick) && Adjacent(n, p, b.stick) && a.stick != b.stick
    requires s.phil[p] == if a.result then Granted else Denied
    requires b in s.mail
    ensures Deliver(n, s, b)
            == State(s.phil[p := if a.result && b.result then Eating else Thinking], s.user,
                     s.mail - multiset{b} + Reply(p, a, b))
  {
  }

  lemma FirstThenSecond(n: nat, s: State, p: nat, a: Message, b: Message)
    requires Sized(n, s) && p < n && s.phil[p] == Hungry && a.Taken? && b.Taken? && a.to == p && b.to == p
    requires Adjacent(n, p, a.stick) && Adjacent(n, p, b.stick) && a.stick != b.stick
    requires a in s.mail && b in s.mail
    ensures var r := Deliver(n, s, a);
            Sized(n, r)
            && Deliver(n, r, b)
               == State(s.phil[p := if a.result && b.result then Eating else Thinking], s.user,
                        s.mail - multiset{a} - multiset{b} + Reply(p, a, b))
  {
    FirstReply(n, s, p, a);
    SecondReply(n, Deliver(n, s, a), p, a, b);
  }

  // ----- Everyone can eat

  /** How many deliveries, at most, bring a philosopher back to thinking with nothing in hand. */
  function Work(n: nat, s: State, p: nat): nat
    requires Sized(n, s) && p < n
  {
    BehaviorWork(s.phil[p]) + ChopstickWork(s, p, p) + ChopstickWork(s, p, Right(n, p))
  }

  function BehaviorWork(b: Behavior): nat {
    match b
    case Init => 1
    case Thinking => 0
    case Hungry => 3
    case Granted => 3
    case Denied => 1
    case Eating => 3
  }

  function ChopstickWork(s: State, p: nat, c: nat): nat {
    2 * s.mail[Take(p, c)] + s.mail[Taken(c, p, true)] + s.mail[Taken(c, p, false)] + s.mail[Put(p, c)]
  }

  lemma WorkToDo(n: nat, s: State, p: nat) returns (m: Message)
    requires Inv(n, s) && p < n && Work(n, s, p) > 0
    ensures m in s.mail && Subject(m) == p && !m.Eat?
  {
    assert PhilosopherInv(n, s, p);
    var r := Right(n, p);
    if Message.Think(p) in s.mail { return Message.Think(p); }
    if Take(p, p) in s.mail { return Take(p, p); }
    if Take(p, r) in s.mail { return Take(p, r); }
    if Taken(p, p, true) in s.mail { return Taken(p, p, true); }
    if Taken(p, p, false) in s.mail { return Taken(p, p, false); }
    if Taken(r, p, true) in s.mail { return Taken(r, p, true); }
    if Taken(r, p, false) in s.mail { return Taken(r, p, false); }
    if Put(p, p) in s.mail { return Put(p, p); }
    return Put(p, r);
  }

  function OtherSide(n: nat, p: nat, c: nat): nat {
    if c == p then Right(n, p) else p
  }

  lemma TwoSides(n: nat, s: State, p: nat, c: nat)
    requires Sized(n, s) && Adjacent(n, p, c)
    ensures Adjacent(n, p, OtherSide(n, p, c)) && OtherSide(n, p, c) != c
    ensures Work(n, s, p)
            == BehaviorWork(s.phil[p]) + ChopstickWork(s, p, c) + ChopstickWork(s, p, OtherSide(n, p, c))
  {
  }

  lemma TakeLowersWork(n: nat, s: State, m: Message)
    requires Sized(n, s) && m in s.mail && WellAddressed(n, m) && m.Take?
    ensures Work(n, Deliver(n, s, m), m.from) < Work(n, s, m.from)
  {
    var t := Deliver(n, s, m);
    TakeEffect(n, s, m);
    TakeWork(s, t, m, s.user[m.stick] == None, OtherSide(n, m.from, m.stick));
    TwoSides(n, s, m.from, m.stick);
    TwoSides(n, t, m.from, m.stick);
  }

  lemma TakeWork(s: State, t: State, m: Message, free: bool, d: nat)
    requires m in s.mail && m.Take? && d != m.stick
    requires t.mail == s.mail - multiset{m} + multiset{Taken(m.stick, m.from, free)}
    ensures ChopstickWork(t, m.from, m.stick) == ChopstickWork(s, m.from, m.stick) - 1
    ensures ChopstickWork(t, m.from, d) == ChopstickWork(s, m.from, d)
  {
  }

  lemma PutLowersWork(n: nat, s: State, m: Message)
    requires Sized(n, s) && m in s.mail && WellAddressed(n, m) && m.Put?
    ensures Work(n, Deliver(n, s, m), m.from) < Work(n, s, m.from)
  {
    var t := Deliver(n, s, m);
    PutEffect(n, s, m);
    PutWork(s, t, m, OtherSide(n, m.from, m.stick));
    TwoSides(n, s, m.from, m.stick);
    TwoSides(n, t, m.from, m.stick);
  }

  lemma PutWork(s: State, t: State, m: Message, d: nat)
    requires m in s.mail && m.Put? && d != m.stick && t.mail == s.mail - multiset{m} + multiset{}
    ensures ChopstickWork(t, m.from, m.stick) == ChopstickWork(s, m.from, m.stick) - 1
    ensures ChopstickWork(t, m.from, d) == ChopstickWork(s, m.from, d)
  {
  }

  lemma ReceiveLowersWork(n: nat, s: State, m: Message)
    requires Sized(n, s) && m in s.mail && WellAddressed(n, m) && (m.Taken? || m.Think?)
    requires PhilosopherInv(n, s, m.to)
    ensures Work(n, Deliver(n, s, m), m.to) < Work(n, s, m.to)
  {
    if m.Think? {
      ThinkLowersWork(n, s, m);
    } else if s.phil[m.to] == Hungry {
      FirstLowersWork(n, s, m);
    } else {
      SecondLowersWork(n, s, m);
    }
  }

  lemma ThinkLowersWork(n: nat, s: State, m: Message)
    requires Sized(n, s) && m in s.mail && WellAddressed(n, m) && m.Think? && PhilosopherInv(n, s, m.to)
    ensures Work(n, Deliver(n, s, m), m.to) < Work(n, s, m.to)
  {
  }

  lemma FirstLowersWork(n: nat, s: State, m: Message)
    requires Sized(n, s) && m in s.mail && WellAddressed(n, m) && m.Taken? && s.phil[m.to] == Hungry
    ensures Work(n, Deliver(n, s, m), m.to) < Work(n, s, m.to)
  {
    FirstReply(n, s, m.to, m);
  }

  lemma SecondLowersWork(n: nat, s: State, m: Message)
    requires Sized(n, s) && m in s.mail && WellAddressed(n, m) && m.Taken? && s.phil[m.to] in {Granted, Denied}
    ensures Work(n, Deliver(n, s, m), m.to) < Work(n, s, m.to)
  {
    var a := Taken(OtherSide(n, m.to, m.stick), m.to, s.phil[m.to] == Granted);
    var t := SecondState(n, s, a, m);
    SecondWork(n, s, t, a, m);
  }

  lemma SecondWork(n: nat, s: State, t: State, a: Message, m: Message)
    requires Sized(n, s) && Sized(n, t) && m in s.mail && WellAddressed(n, m) && m.Taken?
    requires a == Taken(OtherSide(n, m.to, m.stick), m.to, s.phil[m.to] == Granted)
    requires s.phil[m.to] in {Granted, Denied}
    requires t.phil[m.to] == if a.result && m.result then Eating else Thinking
    requires t.mail == s.mail - multiset{m} + Reply(m.to, a, m)
    ensures Work(n, t, m.to) < Work(n, s, m.to)
  {
    TwoSides(n, s, m.to, m.stick);
    TwoSides(n, t, m.to, m.stick);
    AnswerWork(s, t, a, m);
  }

  lemma SecondState(n: nat, s: State, a: Message, m: Message) returns (t: State)
    requires Sized(n, s) && m in s.mail && WellAddressed(n, m) && m.Taken? && s.phil[m.to] in {Granted, Denied}
    requires a == Taken(OtherSide(n, m.to, m.stick), m.to, s.phil[m.to] == Granted)
    ensures t == Deliver(n, s, m) && Sized(n, t) && t.mail == s.mail - multiset{m} + Reply(m.to, a, m)
    ensures t.phil[m.to] == if a.result && m.result then Eating else Thinking
  {
    TwoSides(n, s, m.to, m.stick);
    SecondReply(n, s, m.to, a, m);
    t := Deliver(n, s, m);
  }

  /** A put replaces the answer, or the answer is gone. */
  lemma AnswerWork(s: State, t: State, a: Message, m: Message)
    requires a.Taken? && m.Taken? && a.to == m.to && a.stick != m.stick && m in s.mail
    requires t.mail == s.mail - multiset{m} + Reply(m.to, a, m)
    ensures ChopstickWork(t, m.to, m.stick)
            == ChopstickWork(s, m.to, m.stick) - 1 + (if !a.result && m.result then 1 else 0)
    ensures ChopstickWork(t, m.to, a.stick)
            == ChopstickWork(s, m.to, a.stick) + (if a.result && !m.result then 1 else 0)
  {
  }

  lemma SubjectsWorkIsLower(n: nat, s: State, m: Message)
    requires Sized(n, s) && m in s.mail && WellAddressed(n, m) && !m.Eat? && PhilosopherInv(n, s, Subject(m))
    ensures Work(n, Deliver(n, s, m), Subject(m)) < Work(n, s, Subject(m))
  {
    if m.Take? {
      TakeLowersWork(n, s, m);
    } else if m.Put? {
      PutLowersWork(n, s, m);
    } else {
      ReceiveLowersWork(n, s, m);
    }
  }

  lemma OthersKeepWork(n: nat, s: State, m: Message, q: nat)
    requires Sized(n, s) && m in s.mail && WellAddressed(n, m) && q < n && Subject(m) != q
    requires ToPhilosopher(m) ==> PhilosopherInv(n, s, m.to)
    ensures Work(n, Deliver(n, s, m), q) == Work(n, s, q)
  {
    var t := Deliver(n, s, m);
    forall x | Subject(x) == q ensures t.mail[x] == s.mail[x] {
      OthersKeepMail(n, s, m, x);
    }
    assert t.phil[q] == s.phil[q] by { OthersKeepBehavior(n, s, m, q); }
    SameWork(n, s, t, q);
  }

  lemma SameWork(n: nat, s: State, t: State, q: nat)
    requires Sized(n, s) && Sized(n, t) && q < n && t.phil[q] == s.phil[q]
    requires forall x :: Subject(x) == q ==> t.mail[x] == s.mail[x]
    ensures Work(n, t, q) == Work(n, s, q)
  {
  }

  lemma OthersKeepBehavior(n: nat, s: State, m: Message, q: nat)
    requires Sized(n, s) && WellAddressed(n, m) && q < n && Subject(m) != q
    ensures Deliver(n, s, m).phil[q] == s.phil[q]
  {
  }

  lemma OthersKeepMail(n: nat, s: State, m: Message, x: Message)
    requires Sized(n, s) && m in s.mail && WellAddressed(n, m) && Subject(x) != Subject(m)
    requires ToPhilosopher(m) ==> PhilosopherInv(n, s, m.to)
    ensures Deliver(n, s, m).mail[x] == s.mail[x]
  {
    if ToPhilosopher(m) {
      IsHandled(n, s, m);
      assert x !in ReactionOf(n, s, m).sends;
    }
  }

  // ----- Paths

  ghost function Protocol(n: nat): (State, Message, State) -> bool {
    (r: State, m: Message, s: State) => Steps(n, r, m, s)
  }

  /** The paths from the initial state are the runs. */
  lemma {:induction false} PathIsRun(n: nat, ms: seq<Message>, t: State)
    requires n >= 2 && Path(Protocol(n), Start(n), ms, t)
    ensures Reaches(n, ms, t)
    decreases |ms|
  {
    if ms != [] {
      var r := LastStep(Protocol(n), Start(n), ms, t);
      PathIsRun(n, ms[..|ms| - 1], r);
    } else {
      var states :| IsPath(Protocol(n), states, Start(n), ms, t);
    }
  }

  lemma {:induction false} RunIsPath(n: nat, ms: seq<Message>, t: State)
    requires Reaches(n, ms, t)
    ensures n >= 2 && Path(Protocol(n), Start(n), ms, t)
    decreases |ms|
  {
    if ms == [] {
      EmptyPath(Protocol(n), t);
    } else {
      var k := |ms| - 1;
      var r :| Reaches(n, ms[..k], r) && Steps(n, r, ms[k], t);
      RunIsPath(n, ms[..k], r);
      LongerPath(Protocol(n), Start(n), ms, r, t);
    }
  }

  lemma OneDelivery(n: nat, s: State, m: Message)
    requires Inv(n, s) && m in s.mail
    ensures Inv(n, Deliver(n, s, m)) && Path(Protocol(n), s, [m], Deliver(n, s, m))
  {
    DeliverKeepsInv(n, s, m);
    OneStep(Protocol(n), s, m, Deliver(n, s, m));
  }

  lemma PathContinues(n: nat, ms: seq<Message>, s: State, more: seq<Message>, t: State)
    requires Reaches(n, ms, s) && Path(Protocol(n), s, more, t)
    ensures Reaches(n, ms + more, t)
  {
    RunIsPath(n, ms, s);
    JoinPaths(Protocol(n), Start(n), ms, s, more, t);
    PathIsRun(n, ms + more, t);
  }

  // ----- The way to a meal

  /** One philosopher finishes what it has begun. */
  lemma {:induction false} SettleOne(n: nat, s: State, p: nat) returns (ms: seq<Message>, t: State)
    requires Inv(n, s) && p < n
    ensures Path(Protocol(n), s, ms, t) && Inv(n, t) && Work(n, t, p) == 0 && OthersWork(n, s, t, p)
    decreases Work(n, s, p)
  {
    if Work(n, s, p) == 0 {
      ms, t := [], s;
      EmptyPath(Protocol(n), s);
    } else {
      var m := WorkToDo(n, s, p);
      var r := Deliver(n, s, m);
      OneDelivery(n, s, m);
      DeliveryLowersWork(n, s, p, m);
      var more, u := SettleOne(n, r, p);
      JoinPaths(Protocol(n), s, [m], r, more, u);
      ms, t := [m] + more, u;
    }
  }

  predicate OthersWork(n: nat, s: State, t: State, p: nat)
    requires Sized(n, s) && Sized(n, t)
  {
    forall q :: 0 <= q < n && q != p ==> Work(n, t, q) == Work(n, s, q)
  }

  lemma DeliveryLowersWork(n: nat, s: State, p: nat, m: Message)
    requires Inv(n, s) && p < n && m in s.mail && Subject(m) == p && !m.Eat?
    ensures Work(n, Deliver(n, s, m), p) < Work(n, s, p)
    ensures OthersWork(n, s, Deliver(n, s, m), p)
  {
    assert PhilosopherInv(n, s, p);
    SubjectsWorkIsLower(n, s, m);
    forall q | 0 <= q < n && q != p ensures Work(n, Deliver(n, s, m), q) == Work(n, s, q) {
      OthersKeepWork(n, s, m, q);
    }
  }

  lemma {:induction false} SettleAll(n: nat, s: State, k: nat) returns (ms: seq<Message>, t: State)
    requires Inv(n, s) && k <= n
    ensures Path(Protocol(n), s, ms, t) && Inv(n, t)
    ensures forall q :: 0 <= q < k ==> Work(n, t, q) == 0
    decreases k
  {
    if k == 0 {
      ms, t := [], s;
      EmptyPath(Protocol(n), s);
    } else {
      var first, r := SettleAll(n, s, k - 1);
      var rest, u := SettleOne(n, r, k - 1);
      JoinPaths(Protocol(n), s, first, r, rest, u);
      ms, t := first + rest, u;
    }
  }

  /** When everyone thinks with nothing in hand, every chopstick is available. */
  lemma SettledIsFree(n: nat, s: State, p: nat)
    requires Inv(n, s) && p < n && forall q :: 0 <= q < n ==> Work(n, s, q) == 0
    ensures s.phil[p] == Thinking && Message.Eat(p) in s.mail
    ensures s.user[p] == None && s.user[Right(n, p)] == None
  {
    assert PhilosopherInv(n, s, p) && Work(n, s, p) == 0;
    IsFree(n, s, p);
    IsFree(n, s, Right(n, p));
  }

  lemma IsFree(n: nat, s: State, c: nat)
    requires Inv(n, s) && c < n && forall q :: 0 <= q < n ==> Work(n, s, q) == 0
    ensures s.user[c] == None
  {
    forall q: nat | Adjacent(n, q, c) ensures s.user[c] != Some(q) {
      assert Custody(s, q, c) == if s.user[c] == Some(q) then 1 else 0;
      assert Work(n, s, q) == 0;
    }
  }

  lemma GetsHungry(n: nat, s: State, p: nat) returns (t: State)
    requires Inv(n, s) && p < n && s.phil[p] == Thinking && Message.Eat(p) in s.mail
    ensures Path(Protocol(n), s, [Message.Eat(p)], t) && Inv(n, t)
    ensures t.phil[p] == Hungry && t.user == s.user
    ensures Take(p, p) in t.mail && Take(p, Right(n, p)) in t.mail
  {
    t := Deliver(n, s, Message.Eat(p));
    OneDelivery(n, s, Message.Eat(p));
  }

  lemma GetsChopstick(n: nat, s: State, p: nat, c: nat) returns (t: State)
    requires Inv(n, s) && Adjacent(n, p, c) && Take(p, c) in s.mail && s.user[c] == None
    ensures Path(Protocol(n), s, [Take(p, c)], t) && Inv(n, t)
    ensures t == State(s.phil, s.user[c := Some(p)], s.mail - multiset{Take(p, c)} + multiset{Taken(c, p, true)})
  {
    t := Deliver(n, s, Take(p, c));
    OneDelivery(n, s, Take(p, c));
    TakeEffect(n, s, Take(p, c));
  }

  lemma GetsChopsticks(n: nat, s: State, p: nat) returns (ms: seq<Message>, t: State)
    requires Inv(n, s) && p < n && s.phil[p] == Hungry
    requires Take(p, p) in s.mail && Take(p, Right(n, p)) in s.mail
    requires s.user[p] == None && s.user[Right(n, p)] == None
    ensures Path(Protocol(n), s, ms, t) && Inv(n, t) && t.phil[p] == Hungry
    ensures Taken(p, p, true) in t.mail && Taken(Right(n, p), p, true) in t.mail
  {
    var r := GetsChopstick(n, s, p, p);
    t := GetsChopstick(n, r, p, Right(n, p));
    ms := [Take(p, p)] + [Take(p, Right(n, p))];
    JoinPaths(Protocol(n), s, [Take(p, p)], r, [Take(p, Right(n, p))], t);
  }

  lemma GetsAnswers(n: nat, s: State, p: nat) returns (ms: seq<Message>, t: State)
    requires Inv(n, s) && p < n && s.phil[p] == Hungry
    requires Taken(p, p, true) in s.mail && Taken(Right(n, p), p, true) in s.mail
    ensures Path(Protocol(n), s, ms, t) && Inv(n, t) && t.phil[p] == Eating
  {
    var a, b := Taken(p, p, true), Taken(Right(n, p), p, true);
    FirstThenSecond(n, s, p, a, b);
    FirstReply(n, s, p, a);
    var r := Deliver(n, s, a);
    OneDelivery(n, s, a);
    OneDelivery(n, r, b);
    ms, t := [a] + [b], Deliver(n, r, b);
    JoinPaths(Protocol(n), s, [a], r, [b], t);
  }

  /** With both chopsticks available, five deliveries let a thinking philosopher eat. */
  lemma FiveDeliveries(n: nat, s: State, p: nat) returns (ms: seq<Message>, t: State)
    requires Inv(n, s) && p < n && s.phil[p] == Thinking && Message.Eat(p) in s.mail
    requires s.user[p] == None && s.user[Right(n, p)] == None
    ensures Path(Protocol(n), s, ms, t) && Inv(n, t) && t.phil[p] == Eating
  {
    var first := [Message.Eat(p)];
    var s1 := GetsHungry(n, s, p);
    var second, s2 := GetsChopsticks(n, s1, p);
    var third, s3 := GetsAnswers(n, s2, p);
    JoinPaths(Protocol(n), s1, second, s2, third, s3);
    JoinPaths(Protocol(n), s, first, s1, second + third, s3);
    ms, t := first + (second + third), s3;
  }

  /** From every reachable state, of a ring of any size, every philosopher can get to eat. */
  lemma EveryoneCanEat(n: nat, ms: seq<Message>, s: State, p: nat) returns (more: seq<Message>, t: State)
    requires Reaches(n, ms, s) && p < n
    ensures Reaches(n, ms + more, t) && p < |t.phil| && t.phil[p] == Eating
  {
    ReachableInv(n, ms, s);
    more, t := PathToMeal(n, s, p);
    PathContinues(n, ms, s, more, t);
  }

  lemma PathToMeal(n: nat, s: State, p: nat) returns (ms: seq<Message>, t: State)
    requires Inv(n, s) && p < n
    ensures Path(Protocol(n), s, ms, t) && Inv(n, t) && t.phil[p] == Eating
  {
    var first, r := SettleAll(n, s, n);
    SettledIsFree(n, r, p);
    var rest, u := FiveDeliveries(n, r, p);
    JoinPaths(Protocol(n), s, first, r, rest, u);
    ms, t := first + rest, u;
  }
}
