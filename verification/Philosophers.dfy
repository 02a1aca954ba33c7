/**
 The dining philosophers as message-passing actors: chopsticks that are available or taken,
 philosophers that switch among six behaviours, and a bag of in-flight messages that may be
 delivered in any order.  The ring has any size of at least two.
 */
module Philosophers {
  import opened Wrappers

  datatype Behavior = Init | Thinking | Hungry | Granted | Denied | Eating

  datatype Message =
    | Take(from: nat, stick: nat)
    | Put(from: nat, stick: nat)
    | Taken(stick: nat, to: nat, result: bool)
    | Eat(to: nat)
    | Think(to: nat)

  /** What a behaviour does with a message: leave it in the mailbox, or switch and send. */
  datatype Reaction = Skip | Become(next: Behavior, sends: multiset<Message>)

  // ----- The philosopher actor

  function React(id: nat, left: nat, right: nat, b: Behavior, m: Message): Reaction {
    match (b, m)
    case (Init, Think(_)) => Become(Thinking, multiset{Eat(id)})
    case (Thinking, Eat(_)) => Become(Hungry, multiset{Take(id, left), Take(id, right)})
    case (Hungry, Taken(_, _, result)) => Become(if result then Granted else Denied, multiset{})
    case (Granted, Taken(stick, _, result)) =>
      if result then Become(Eating, multiset{Think(id)})
      else Become(Thinking, multiset{Put(id, if stick == left then right else left), Eat(id)})
    case (Denied, Taken(stick, _, result)) =>
      if result then Become(Thinking, multiset{Put(id, if stick == left then left else right), Eat(id)})
      else Become(Thinking, multiset{Eat(id)})
    case (Eating, Think(_)) => Become(Thinking, multiset{Put(id, left), Put(id, right), Eat(id)})
    case _ => Skip
  }

  class Philosopher {
    const id: nat
    const left: nat
    const right: nat
    var behavior: Behavior

    constructor (id: nat, left: nat, right: nat)
      ensures this.id == id && this.left == left && this.right == right && behavior == Init
    {
      this.id, this.left, this.right := id, left, right;
      behavior := Init;
    }

    /** Runs the current behaviour on `m`; `handled` is false when the default handler skips it. */
    method Receive(m: Message) returns (handled: bool, sends: multiset<Message>)
      modifies this
      ensures handled <==> React(id, left, right, old(behavior), m).Become?
      ensures handled ==> React(id, left, right, old(behavior), m) == Become(behavior, sends)
      ensures !handled ==> behavior == old(behavior) && sends == multiset{}
    {
      handled, sends := true, multiset{};
      if behavior == Init && m.Think? {
        sends := multiset{Eat(id)};
        behavior := Thinking;
      } else if behavior == Thinking && m.Eat? {
        behavior := Hungry;
        sends := multiset{Take(id, left), Take(id, right)};
      } else if behavior == Hungry && m.Taken? {
        behavior := if m.result then Granted else Denied;
      } else if behavior == Granted && m.Taken? {
        if m.result {
          sends := multiset{Think(id)};
          behavior := Eating;
        } else {
          sends := multiset{Put(id, if m.stick == left then right else left), Eat(id)};
          behavior := Thinking;
        }
      } else if behavior == Denied && m.Taken? {
        sends := multiset{Eat(id)};
        if m.result {
          sends := multiset{Put(id, if m.stick == left then left else right)} + sends;
        }
        behavior := Thinking;
      } else if behavior == Eating && m.Think? {
        sends := multiset{Put(id, left), Put(id, right), Eat(id)};
        behavior := Thinking;
      } else {
        handled := false;
      }
    }
  }

  // ----- The chopstick actor

  class Chopstick {
    var user: Option<nat>

    constructor ()
      ensures user == None
    {
      user := None;
    }

    method Take(sender: nat) returns (result: bool)
      modifies this
      ensures result <==> old(user) == None
      ensures user == if result then Some(sender) else old(user)
    {
      result := user.None?;
      if result {
        user := Some(sender);
      }
    }

    /** `unexpected` is the error the available behaviour prints. */
    method Put(sender: nat) returns (unexpected: bool)
      modifies this
      ensures unexpected <==> old(user) == None
      ensures user == if old(user) == Some(sender) then None else old(user)
    {
      unexpected := user.None?;
      if user == Some(sender) {
        user := None;
      }
    }
  }

  // ----- The system

  datatype State = State(phil: seq<Behavior>, user: seq<Option<nat>>, mail: multiset<Message>)

  function Right(n: nat, p: nat): nat {
    if p + 1 == n then 0 else p + 1
  }

  lemma RightIsModulo(n: nat, p: nat)
    requires p < n
    ensures Right(n, p) == (p + 1) % n
  {
    if p + 1 == n {
      assert n % n == 0;
    } else {
      assert (p + 1) % n == p + 1;
    }
  }

  predicate Adjacent(n: nat, p: nat, c: nat) {
    p < n && (c == p || c == Right(n, p))
  }

  predicate Sized(n: nat, s: State) {
    n >= 2 && |s.phil| == n && |s.user| == n
  }

  predicate WellAddressed(n: nat, m: Message) {
    match m
    case Take(p, c) => Adjacent(n, p, c)
    case Put(p, c) => Adjacent(n, p, c)
    case Taken(c, p, _) => Adjacent(n, p, c)
    case Eat(p) => p < n
    case Think(p) => p < n
  }

  function Start(n: nat): State {
    State(seq(n, _ => Init), seq(n, _ => None), multiset(seq(n, i requires i >= 0 => Think(i))))
  }

  predicate ToPhilosopher(m: Message) {
    m.Taken? || m.Eat? || m.Think?
  }

  /** The philosopher a message is about. */
  function Subject(m: Message): nat {
    if ToPhilosopher(m) then m.to else m.from
  }

  function ReactionOf(n: nat, s: State, m: Message): Reaction
    requires Sized(n, s) && WellAddressed(n, m) && ToPhilosopher(m)
  {
    React(m.to, m.to, Right(n, m.to), s.phil[m.to], m)
  }

  /** The delivery of one in-flight message; a skipped message stays in its mailbox. */
  function Deliver(n: nat, s: State, m: Message): State
    requires Sized(n, s) && WellAddressed(n, m)
  {
    var rest := s.mail - multiset{m};
    match m
    case Take(p, c) =>
      if s.user[c].None?
      then s.(user := s.user[c := Some(p)], mail := rest + multiset{Taken(c, p, true)})
      else s.(mail := rest + multiset{Taken(c, p, false)})
    case Put(p, c) =>
      s.(user := if s.user[c] == Some(p) then s.user[c := None] else s.user, mail := rest)
    case _ =>
      match ReactionOf(n, s, m)
      case Skip => s
      case Become(b, sends) => s.(phil := s.phil[m.to := b], mail := rest + sends)
  }

  /** The variant without the skip handler: a message no behaviour matches is dropped. */
  function DeliverOrDrop(n: nat, s: State, m: Message): State
    requires Sized(n, s) && WellAddressed(n, m)
  {
    if ToPhilosopher(m) && ReactionOf(n, s, m).Skip?
    then s.(mail := s.mail - multiset{m})
    else Deliver(n, s, m)
  }

  lemma TakeEffect(n: nat, s: State, m: Message)
    requires Sized(n, s) && m in s.mail && WellAddressed(n, m) && m.Take?
    ensures var free := s.user[m.stick] == None;
            Deliver(n, s, m) == State(s.phil, if free then s.user[m.stick := Some(m.from)] else s.user,
                                      s.mail - multiset{m} + multiset{Taken(m.stick, m.from, free)})
  {
  }

  lemma PutEffect(n: nat, s: State, m: Message)
    requires Sized(n, s) && m in s.mail && WellAddressed(n, m) && m.Put?
    ensures var user := if s.user[m.stick] == Some(m.from) then s.user[m.stick := None] else s.user;
            Deliver(n, s, m) == State(s.phil, user, s.mail - multiset{m} + multiset{})
  {
  }

  // ----- The objects refine the state machine

  /** All actors of one run, and the messages between them. */
  class Table {
    const n: nat
    const phils: seq<Philosopher>
    const sticks: seq<Chopstick>
    var mail: multiset<Message>

    ghost predicate Valid() {
      && n >= 2
      && |phils| == n && |sticks| == n
      && (forall i :: 0 <= i < n ==> phils[i].id == i && phils[i].left == i && phils[i].right == Right(n, i))
      && (forall i, j :: 0 <= i < j < n ==> phils[i] != phils[j] && sticks[i] != sticks[j])
    }

    ghost function Behaviors(): seq<Behavior>
      requires Valid()
      reads phils
    {
      seq(n, i requires 0 <= i < n reads phils => phils[i].behavior)
    }

    ghost function Users(): seq<Option<nat>>
      requires Valid()
      reads sticks
    {
      seq(n, i requires 0 <= i < n reads sticks => sticks[i].user)
    }

    ghost function View(): State
      requires Valid()
      reads this, phils, sticks
    {
      State(Behaviors(), Users(), mail)
    }

    constructor (n: nat)
      requires n >= 2
      ensures Valid() && this.n == n && View() == Start(n)
      ensures fresh(phils) && fresh(sticks)
    {
      var cs: seq<Chopstick> := [];
      for i := 0 to n
        invariant |cs| == i && fresh(cs)
        invariant forall k :: 0 <= k < i ==> cs[k].user == None
        invariant forall k, l :: 0 <= k < l < i ==> cs[k] != cs[l]
      {
        var c := new Chopstick();
        cs := cs + [c];
      }
      var ps: seq<Philosopher> := [];
      var box: multiset<Message> := multiset{};
      ghost var sent: seq<Message> := [];
      for i := 0 to n
        invariant |ps| == i && fresh(ps)
        invariant forall k :: 0 <= k < i ==>
                                ps[k].id == k && ps[k].left == k && ps[k].right == Right(n, k) && ps[k].behavior == Init
        invariant forall k, l :: 0 <= k < l < i ==> ps[k] != ps[l]
        invariant forall k :: 0 <= k < n ==> cs[k].user == None
        invariant sent == seq(i, k requires k >= 0 => Think(k)) && box == multiset(sent)
      {
        var p := new Philosopher(i, i, (i + 1) % n);
        assert (i + 1) % n == Right(n, i) by { RightIsModulo(n, i); }
        ps := ps + [p];
        box := box + multiset{Think(i)};
        sent := sent + [Think(i)];
      }
      this.n, this.phils, this.sticks, this.mail := n, ps, cs, box;
    }

    /** Hands the in-flight message `m` to the actor it is addressed to. */
    method Dispatch(m: Message)
      requires Valid() && m in mail && WellAddressed(n, m)
      modifies this, phils, sticks
      ensures Valid() && View() == Deliver(n, old(View()), m)
    {
      if m.Take? {
        DispatchTake(m);
      } else if m.Put? {
        DispatchPut(m);
      } else {
        DispatchToPhilosopher(m);
      }
    }

    method DispatchTake(m: Message)
      requires Valid() && m in mail && WellAddressed(n, m) && m.Take?
      modifies `mail, sticks
      ensures View() == Deliver(n, old(View()), m)
    {
      TakeEffect(n, View(), m);
      var result := TakeAt(m.stick, m.from);
      SwapMail(m, multiset{Taken(m.stick, m.from, result)});
    }

    method SwapMail(m: Message, sends: multiset<Message>)
      requires Valid() && m in mail
      modifies `mail
      ensures View() == old(View()).(mail := old(mail) - multiset{m} + sends)
    {
      mail := mail - multiset{m} + sends;
    }

    method TakeAt(c: nat, sender: nat) returns (result: bool)
      requires Valid() && c < n
      modifies sticks
      ensures result <==> old(Users())[c] == None
      ensures Users() == if result then old(Users())[c := Some(sender)] else old(Users())
    {
      ghost var before := Users();
      result := sticks[c].Take(sender);
      assert Users() == before[c := sticks[c].user];
      assert before[c := before[c]] == before;
    }

    method DispatchPut(m: Message)
      requires Valid() && m in mail && WellAddressed(n, m) && m.Put?
      modifies `mail, sticks
      ensures View() == Deliver(n, old(View()), m)
    {
      PutEffect(n, View(), m);
      PutAt(m.stick, m.from);
      SwapMail(m, multiset{});
    }

    method PutAt(c: nat, sender: nat)
      requires Valid() && c < n
      modifies sticks
      ensures Users() == if old(Users())[c] == Some(sender) then old(Users())[c := None] else old(Users())
    {
      ghost var before := Users();
      var _ := sticks[c].Put(sender);
      assert Users() == before[c := sticks[c].user];
      assert before[c := before[c]] == before;
    }

    method DispatchToPhilosopher(m: Message)
      requires Valid() && m in mail && WellAddressed(n, m) && ToPhilosopher(m)
      modifies `mail, phils
      ensures View() == Deliver(n, old(View()), m)
    {
      ghost var s := View();
      ghost var reaction := ReactionOf(n, s, m);
      ghost var next := Deliver(n, s, m);
      assert next == if reaction.Skip? then s
                     else State(s.phil[m.to := reaction.next], s.user, s.mail - multiset{m} + reaction.sends);
      var handled, sends := ReceiveAt(m);
      if handled {
        mail := mail - multiset{m} + sends;
      }
    }

    method ReceiveAt(m: Message) returns (handled: bool, sends: multiset<Message>)
      requires Valid() && WellAddressed(n, m) && ToPhilosopher(m)
      modifies phils
      ensures handled <==> ReactionOf(n, old(View()), m).Become?
      ensures handled ==>
                var reaction := ReactionOf(n, old(View()), m);
                sends == reaction.sends && Behaviors() == old(Behaviors())[m.to := reaction.next]
      ensures !handled ==> Behaviors() == old(Behaviors())
    {
      ghost var before := Behaviors();
      handled, sends := phils[m.to].Receive(m);
      assert Behaviors() == before[m.to := phils[m.to].behavior];
      assert before[m.to := before[m.to]] == before;
    }
  }

  // ----- The invariant

  /** The take requests of `p` at `c` that `p` has not seen answered. */
  function Outstanding(s: State, p: nat, c: nat): nat {
    s.mail[Take(p, c)] + s.mail[Taken(c, p, true)] + s.mail[Taken(c, p, false)]
  }

  /** A granted philosopher stores no chopstick: it holds the one whose answer has come. */
  predicate Holds(s: State, p: nat, c: nat)
    requires p < |s.phil|
  {
    s.phil[p] == Eating || (s.phil[p] == Granted && Outstanding(s, p, c) == 0)
  }

  /** How often `c` is on its way to, with, or on its way back from `p`. */
  function Custody(s: State, p: nat, c: nat): nat
    requires p < |s.phil|
  {
    s.mail[Taken(c, p, true)] + (if Holds(s, p, c) then 1 else 0) + s.mail[Put(p, c)]
  }

  predicate PhilosopherInv(n: nat, s: State, p: nat)
    requires Sized(n, s) && p < n
  {
    var l, r := Outstanding(s, p, p), Outstanding(s, p, Right(n, p));
    && (match s.phil[p]
        case Hungry => l == 1 && r == 1
        case Granted => l + r == 1
        case Denied => l + r == 1
        case _ => l == 0 && r == 0)
    && s.mail[Eat(p)] == (if s.phil[p] == Thinking then 1 else 0)
    && s.mail[Think(p)] == (if s.phil[p] in {Init, Eating} then 1 else 0)
  }

  ghost predicate Inv(n: nat, s: State) {
    && Sized(n, s)
    && (forall m :: m in s.mail ==> WellAddressed(n, m))
    && (forall p :: 0 <= p < n ==> PhilosopherInv(n, s, p))
    && (forall p: nat, c: nat :: Adjacent(n, p, c) ==> Custody(s, p, c) == if s.user[c] == Some(p) then 1 else 0)
    && (forall c :: 0 <= c < n && s.user[c].Some? ==> Adjacent(n, s.user[c].value, c))
  }

  lemma StartInv(n: nat)
    requires n >= 2
    ensures Inv(n, Start(n))
  {
    var s := Start(n);
    var box := seq(n, i requires i >= 0 => Think(i));
    ThinkOnce(n, box);
    forall m | m in s.mail ensures WellAddressed(n, m) {
      assert m in box;
    }
    forall p | 0 <= p < n ensures PhilosopherInv(n, s, p) {
      assert Take(p, p) !in box && Take(p, Right(n, p)) !in box;
    }
  }

  lemma {:induction false} ThinkOnce(n: nat, box: seq<Message>)
    requires |box| == n && forall i :: 0 <= i < n ==> box[i] == Think(i)
    ensures forall i :: 0 <= i < n ==> multiset(box)[Think(i)] == 1
    ensures forall m :: m in multiset(box) ==> m.Think? && m.to < n
  {
    if n > 0 {
      var front := box[..n - 1];
      ThinkOnce(n - 1, front);
      assert box == front + [Think(n - 1)];
      assert Think(n - 1) !in multiset(front);
    }
  }

  lemma TakeKeepsInv(n: nat, s: State, m: Message)
    requires Inv(n, s) && m in s.mail && m.Take?
    ensures Inv(n, Deliver(n, s, m))
  {
    var t := Deliver(n, s, m);
    forall p | 0 <= p < n ensures PhilosopherInv(n, t, p) {
      assert PhilosopherInv(n, s, p);
      TakeKeepsPhilosopher(n, s, m, p);
    }
    forall p: nat, c: nat | Adjacent(n, p, c)
      ensures Custody(t, p, c) == if t.user[c] == Some(p) then 1 else 0
    {
      TakeKeepsCustody(n, s, m, p, c);
    }
  }

  lemma TakeKeepsOutstanding(n: nat, s: State, m: Message, p: nat, c: nat)
    requires Sized(n, s) && m in s.mail && m.Take? && WellAddressed(n, m)
    ensures Outstanding(Deliver(n, s, m), p, c) == Outstanding(s, p, c)
  {
  }

  lemma TakeKeepsPhilosopher(n: nat, s: State, m: Message, p: nat)
    requires Sized(n, s) && m in s.mail && m.Take? && WellAddressed(n, m) && p < n
    requires PhilosopherInv(n, s, p)
    ensures PhilosopherInv(n, Deliver(n, s, m), p)
  {
    TakeKeepsOutstanding(n, s, m, p, p);
    TakeKeepsOutstanding(n, s, m, p, Right(n, p));
  }

  lemma TakeKeepsCustody(n: nat, s: State, m: Message, p: nat, c: nat)
    requires Sized(n, s) && m in s.mail && m.Take? && WellAddressed(n, m) && Adjacent(n, p, c)
    requires Custody(s, p, c) == if s.user[c] == Some(p) then 1 else 0
    ensures var t := Deliver(n, s, m);
            Custody(t, p, c) == if t.user[c] == Some(p) then 1 else 0
  {
    if m == Take(p, c) {
      OwnTakeKeepsCustody(n, s, p, c);
    } else {
      OtherTakeKeepsCustody(n, s, m, p, c);
    }
  }

  lemma OwnTakeKeepsCustody(n: nat, s: State, p: nat, c: nat)
    requires Sized(n, s) && Take(p, c) in s.mail && Adjacent(n, p, c)
    ensures var t := Deliver(n, s, Take(p, c));
            && Custody(t, p, c) == Custody(s, p, c) + (if s.user[c] == None then 1 else 0)
            && t.user[c] == if s.user[c] == None then Some(p) else s.user[c]
  {
    TakeKeepsOutstanding(n, s, Take(p, c), p, c);
  }

  lemma OtherTakeKeepsCustody(n: nat, s: State, m: Message, p: nat, c: nat)
    requires Sized(n, s) && m in s.mail && m.Take? && WellAddressed(n, m) && Adjacent(n, p, c) && m != Take(p, c)
    ensures var t := Deliver(n, s, m);
            Custody(t, p, c) == Custody(s, p, c) && (t.user[c] == Some(p) <==> s.user[c] == Some(p))
  {
    TakeKeepsOutstanding(n, s, m, p, c);
  }

  lemma PutKeepsInv(n: nat, s: State, m: Message)
    requires Inv(n, s) && m in s.mail && m.Put?
    ensures s.user[m.stick] == Some(m.from)
    ensures Inv(n, Deliver(n, s, m))
  {
    var t := Deliver(n, s, m);
    assert Custody(s, m.from, m.stick) == if s.user[m.stick] == Some(m.from) then 1 else 0;
    forall p | 0 <= p < n ensures PhilosopherInv(n, t, p) {
      assert PhilosopherInv(n, s, p);
    }
    forall p: nat, c: nat | Adjacent(n, p, c)
      ensures Custody(t, p, c) == if t.user[c] == Some(p) then 1 else 0
    {
      assert Outstanding(t, p, c) == Outstanding(s, p, c);
    }
  }

  lemma ReceiveKeepsInv(n: nat, s: State, m: Message)
    requires Inv(n, s) && m in s.mail && ToPhilosopher(m)
    ensures ReactionOf(n, s, m).Become?
    ensures Inv(n, Deliver(n, s, m))
  {
    var t := Deliver(n, s, m);
    IsHandled(n, s, m);
    forall p | 0 <= p < n ensures PhilosopherInv(n, t, p) {
      assert PhilosopherInv(n, s, p) && PhilosopherInv(n, s, m.to);
      if p == m.to {
        ReceiverStaysConsistent(n, s, m);
      } else {
        OthersUnaffected(n, s, m, p);
      }
    }
    forall p: nat, c: nat | Adjacent(n, p, c)
      ensures Custody(t, p, c) == if t.user[c] == Some(p) then 1 else 0
    {
      assert Custody(s, p, c) == if s.user[c] == Some(p) then 1 else 0;
      assert PhilosopherInv(n, s, m.to);
      if p == m.to {
        ReceiverKeepsCustody(n, s, m, c);
      } else {
        OthersUnaffected(n, s, m, p);
      }
    }
    forall x | x in t.mail ensures WellAddressed(n, x) {
      assert x in s.mail || x in ReactionOf(n, s, m).sends;
    }
  }

  lemma IsHandled(n: nat, s: State, m: Message)
    requires Sized(n, s) && m in s.mail && WellAddressed(n, m) && ToPhilosopher(m)
    requires PhilosopherInv(n, s, m.to)
    ensures ReactionOf(n, s, m).Become?
    ensures forall x :: x in ReactionOf(n, s, m).sends ==>
                          x != m && WellAddressed(n, x) && Subject(x) == m.to && !x.Taken?
  {
  }

  lemma OthersUnaffected(n: nat, s: State, m: Message, p: nat)
    requires Sized(n, s) && m in s.mail && WellAddressed(n, m) && ToPhilosopher(m) && p < n && p != m.to
    requires PhilosopherInv(n, s, m.to)
    ensures PhilosopherInv(n, s, p) ==> PhilosopherInv(n, Deliver(n, s, m), p)
    ensures forall c: nat :: Custody(Deliver(n, s, m), p, c) == Custody(s, p, c)
  {
    var t := Deliver(n, s, m);
    IsHandled(n, s, m);
    var sends := ReactionOf(n, s, m).sends;
    forall x | Subject(x) == p ensures t.mail[x] == s.mail[x] {
      assert x !in sends && x != m;
    }
    SameMail(n, s, t, p);
  }

  lemma SameMail(n: nat, s: State, t: State, p: nat)
    requires Sized(n, s) && Sized(n, t) && p < n && s.phil[p] == t.phil[p]
    requires forall x :: Subject(x) == p ==> t.mail[x] == s.mail[x]
    ensures PhilosopherInv(n, s, p) ==> PhilosopherInv(n, t, p)
    ensures forall c: nat :: Custody(t, p, c) == Custody(s, p, c)
  {
    forall c: nat ensures Custody(t, p, c) == Custody(s, p, c) && Outstanding(t, p, c) == Outstanding(s, p, c) {
    }
  }

  lemma ReceiverStaysConsistent(n: nat, s: State, m: Message)
    requires Sized(n, s) && m in s.mail && WellAddressed(n, m) && ToPhilosopher(m)
    requires PhilosopherInv(n, s, m.to)
    ensures PhilosopherInv(n, Deliver(n, s, m), m.to)
  {
    if m.Taken? {
      AnsweredStaysConsistent(n, s, m);
    }
  }

  lemma AnsweredStaysConsistent(n: nat, s: State, m: Message)
    requires Sized(n, s) && m in s.mail && WellAddressed(n, m) && m.Taken?
    requires PhilosopherInv(n, s, m.to)
    ensures PhilosopherInv(n, Deliver(n, s, m), m.to)
  {
    if s.phil[m.to] == Hungry {
      FirstAnswer(n, s, m);
    } else {
      SecondAnswer(n, s, m);
    }
  }

  lemma FirstAnswer(n: nat, s: State, m: Message)
    requires Sized(n, s) && m in s.mail && WellAddressed(n, m) && m.Taken?
    requires s.phil[m.to] == Hungry && PhilosopherInv(n, s, m.to)
    ensures PhilosopherInv(n, Deliver(n, s, m), m.to)
  {
  }

  lemma SecondAnswer(n: nat, s: State, m: Message)
    requires Sized(n, s) && m in s.mail && WellAddressed(n, m) && m.Taken?
    requires s.phil[m.to] != Hungry && PhilosopherInv(n, s, m.to)
    ensures PhilosopherInv(n, Deliver(n, s, m), m.to)
  {
  }

  lemma ReceiverKeepsCustody(n: nat, s: State, m: Message, c: nat)
    requires Sized(n, s) && m in s.mail && WellAddressed(n, m) && ToPhilosopher(m) && Adjacent(n, m.to, c)
    requires PhilosopherInv(n, s, m.to)
    ensures Custody(Deliver(n, s, m), m.to, c) == Custody(s, m.to, c)
  {
    if m.Taken? && s.phil[m.to] == Hungry {
      HungryKeepsCustody(n, s, m, c);
    } else if m.Taken? && s.phil[m.to] == Granted {
      GrantedKeepsCustody(n, s, m, c);
    } else if m.Taken? {
      DeniedKeepsCustody(n, s, m, c);
    }
  }

  lemma HungryKeepsCustody(n: nat, s: State, m: Message, c: nat)
    requires Sized(n, s) && m in s.mail && WellAddressed(n, m) && m.Taken? && Adjacent(n, m.to, c)
    requires s.phil[m.to] == Hungry && PhilosopherInv(n, s, m.to)
    ensures Custody(Deliver(n, s, m), m.to, c) == Custody(s, m.to, c)
  {
  }

  lemma GrantedKeepsCustody(n: nat, s: State, m: Message, c: nat)
    requires Sized(n, s) && m in s.mail && WellAddressed(n, m) && m.Taken? && Adjacent(n, m.to, c)
    requires s.phil[m.to] == Granted && PhilosopherInv(n, s, m.to)
    ensures Custody(Deliver(n, s, m), m.to, c) == Custody(s, m.to, c)
  {
  }

  lemma DeniedKeepsCustody(n: nat, s: State, m: Message, c: nat)
    requires Sized(n, s) && m in s.mail && WellAddressed(n, m) && m.Taken? && Adjacent(n, m.to, c)
    requires s.phil[m.to] == Denied && PhilosopherInv(n, s, m.to)
    ensures Custody(Deliver(n, s, m), m.to, c) == Custody(s, m.to, c)
  {
  }

  lemma DeliverKeepsInv(n: nat, s: State, m: Message)
    requires Inv(n, s) && m in s.mail
    ensures Inv(n, Deliver(n, s, m))
  {
    if m.Take? {
      TakeKeepsInv(n, s, m);
    } else if m.Put? {
      PutKeepsInv(n, s, m);
    } else {
      ReceiveKeepsInv(n, s, m);
    }
  }

  // ----- Whole runs

  predicate Steps(n: nat, r: State, m: Message, s: State) {
    Sized(n, r) && m in r.mail && WellAddressed(n, m) && s == Deliver(n, r, m)
  }

  predicate StepsWithoutSkip(n: nat, r: State, m: Message, s: State) {
    Sized(n, r) && m in r.mail && WellAddressed(n, m) && s == DeliverOrDrop(n, r, m)
  }

  /** `ms` are the delivered messages of a run from the initial state; `s` is where it ends. */
  ghost predicate Reaches(n: nat, ms: seq<Message>, s: State)
    decreases |ms|
  {
    if ms == [] then n >= 2 && s == Start(n)
    else
      var m := ms[|ms| - 1];
      exists r :: Reaches(n, ms[..|ms| - 1], r) && Steps(n, r, m, s)
  }

  ghost predicate ReachesWithoutSkip(n: nat, ms: seq<Message>, s: State)
    decreases |ms|
  {
    if ms == [] then n >= 2 && s == Start(n)
    else
      var m := ms[|ms| - 1];
      exists r :: ReachesWithoutSkip(n, ms[..|ms| - 1], r) && StepsWithoutSkip(n, r, m, s)
  }

  lemma {:induction false} ReachableInv(n: nat, ms: seq<Message>, s: State)
    requires Reaches(n, ms, s)
    ensures Inv(n, s)
    decreases |ms|
  {
    if ms == [] {
      StartInv(n);
    } else {
      var m := ms[|ms| - 1];
      var r :| Reaches(n, ms[..|ms| - 1], r) && Steps(n, r, m, s);
      ReachableInv(n, ms[..|ms| - 1], r);
      DeliverKeepsInv(n, r, m);
    }
  }

  // ----- Main results

  /** A chopstick is taken by a philosopher exactly when one, and only one, of three things holds. */
  lemma Ownership(n: nat, ms: seq<Message>, s: State, p: nat, c: nat)
    requires Reaches(n, ms, s) && n >= 2 && Adjacent(n, p, c)
    ensures Sized(n, s)
    ensures s.user[c] == Some(p) <==>
            s.mail[Taken(c, p, true)] + (if Holds(s, p, c) then 1 else 0) + s.mail[Put(p, c)] == 1
    ensures s.user[c] != Some(p) ==>
              Taken(c, p, true) !in s.mail && !Holds(s, p, c) && Put(p, c) !in s.mail
  {
    ReachableInv(n, ms, s);
    assert Custody(s, p, c) == if s.user[c] == Some(p) then 1 else 0;
  }

  /** An eating philosopher owns both chopsticks, so its neighbours do not eat. */
  lemma MutualExclusion(n: nat, ms: seq<Message>, s: State, p: nat)
    requires Reaches(n, ms, s) && Sized(n, s) && p < n && s.phil[p] == Eating
    ensures s.user[p] == Some(p) && s.user[Right(n, p)] == Some(p)
    ensures forall q: nat, c: nat :: q != p && Adjacent(n, q, c) && Adjacent(n, p, c) ==> s.phil[q] != Eating
  {
    Ownership(n, ms, s, p, p);
    Ownership(n, ms, s, p, Right(n, p));
    forall q: nat, c: nat | q != p && Adjacent(n, q, c) && Adjacent(n, p, c)
      ensures s.phil[q] != Eating
    {
      Ownership(n, ms, s, q, c);
      Ownership(n, ms, s, p, c);
    }
  }

  /** No put reaches an available chopstick or comes from somebody who is not its user. */
  lemma EveryPutIsExpected(n: nat, ms: seq<Message>, s: State, m: Message)
    requires Reaches(n, ms, s) && m in s.mail && m.Put?
    ensures m.stick < |s.user| && s.user[m.stick] == Some(m.from)
  {
    ReachableInv(n, ms, s);
    PutKeepsInv(n, s, m);
  }

  /** A message to a philosopher is always one its current behaviour handles. */
  lemma NothingIsSkipped(n: nat, ms: seq<Message>, s: State, m: Message)
    requires Reaches(n, ms, s) && m in s.mail
    ensures Sized(n, s) && WellAddressed(n, m)
    ensures ToPhilosopher(m) ==> ReactionOf(n, s, m).Become?
    ensures DeliverOrDrop(n, s, m) == Deliver(n, s, m)
  {
    ReachableInv(n, ms, s);
    if ToPhilosopher(m) {
      ReceiveKeepsInv(n, s, m);
    }
  }

  /** So the two versions of the example have the same runs. */
  lemma {:induction false} SameRunsWithoutSkip(n: nat, ms: seq<Message>, s: State)
    ensures Reaches(n, ms, s) <==> ReachesWithoutSkip(n, ms, s)
    decreases |ms|
  {
    if ms != [] {
      var front, m := ms[..|ms| - 1], ms[|ms| - 1];
      forall r ensures Reaches(n, front, r) && Steps(n, r, m, s)
                       <==> ReachesWithoutSkip(n, front, r) && StepsWithoutSkip(n, r, m, s) {
        SameRunsWithoutSkip(n, front, r);
        if Reaches(n, front, r) { SameSteps(n, front, r, m, s); }
      }
    }
  }

  lemma SameSteps(n: nat, ms: seq<Message>, r: State, m: Message, s: State)
    requires Reaches(n, ms, r)
    ensures Steps(n, r, m, s) <==> StepsWithoutSkip(n, r, m, s)
  {
    if m in r.mail { NothingIsSkipped(n, ms, r, m); }
  }

  /**
   Every philosopher has one timer message and no open request, or no timer message and an open
   request; so in every reachable state every philosopher has a message whose delivery changes the
   state: the system never deadlocks.
   */
  lemma NoDeadlock(n: nat, ms: seq<Message>, s: State, p: nat)
    requires Reaches(n, ms, s) && p < n
    ensures n >= 2
    ensures var timers := s.mail[Eat(p)] + s.mail[Think(p)];
            var open := Outstanding(s, p, p) + Outstanding(s, p, Right(n, p));
            (timers == 1 && open == 0) || (timers == 0 && 1 <= open <= 2)
    ensures exists m :: m in s.mail && !m.Put? && Subject(m) == p
                        && WellAddressed(n, m) && Sized(n, s) && Deliver(n, s, m) != s
  {
    ReachableInv(n, ms, s);
    assert PhilosopherInv(n, s, p);
    var m := Witness(n, s, p);
    NothingIsSkipped(n, ms, s, m);
    DeliveryChangesState(n, s, m);
  }

  lemma Witness(n: nat, s: State, p: nat) returns (m: Message)
    requires Inv(n, s) && p < n
    ensures m in s.mail && !m.Put? && Subject(m) == p
  {
    assert PhilosopherInv(n, s, p);
    var r := Right(n, p);
    if Eat(p) in s.mail { return Eat(p); }
    if Think(p) in s.mail { return Think(p); }
    if Take(p, p) in s.mail { return Take(p, p); }
    if Take(p, r) in s.mail { return Take(p, r); }
    if Taken(p, p, true) in s.mail { return Taken(p, p, true); }
    if Taken(p, p, false) in s.mail { return Taken(p, p, false); }
    if Taken(r, p, true) in s.mail { return Taken(r, p, true); }
    return Taken(r, p, false);
  }

  lemma DeliveryChangesState(n: nat, s: State, m: Message)
    requires Inv(n, s) && m in s.mail
    ensures Deliver(n, s, m) != s
  {
    var t := Deliver(n, s, m);
    if ToPhilosopher(m) {
      assert PhilosopherInv(n, s, m.to);
      IsHandled(n, s, m);
      assert m !in ReactionOf(n, s, m).sends;
    }
    assert t.mail[m] == s.mail[m] - 1;
  }
}
