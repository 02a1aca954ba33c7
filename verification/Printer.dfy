/**
 The printer actor: it buffers the text of each actor until a line is complete, and sends it to the
 actor's sink, the global sink or the console.  Sinks are append-only logs.
 */
module Printer {
  import opened Wrappers
  import opened Sinks

  datatype ActorData = ActorData(line: string, redirect: Option<Ref>)

  /** `dest` is None for the console. */
  datatype Emission = Emission(aid: nat, dest: Option<Ref>, text: string, forced: bool)

  datatype Message =
    | Add(aid: nat, text: string)
    | Flush(aid: nat)
    | Delete(aid: nat)
    | RedirectAll(fn: string, opens: bool)
    | Redirect(aid: nat, fn: string, opens: bool)
    | Exit

  const INVALID_ACTOR_ID: nat := 0

  datatype State = State(
    cache: Cache,
    nextGen: nat,
    globalRedirect: Option<Ref>,
    data: map<nat, ActorData>,
    log: seq<Emission>,
    done: bool)

  const Start := State(map[], 0, None, map[], [], false)

  // ----- The handlers

  /** `get_data(aid, true)` for a valid actor. */
  function WithData(s: State, aid: nat): State {
    if aid in s.data then s else s.(data := s.data[aid := ActorData("", None)])
  }

  function WithText(s: State, aid: nat, text: string): State {
    var r := WithData(s, aid);
    r.(data := r.data[aid := r.data[aid].(line := r.data[aid].line + text)])
  }

  function Destination(s: State, d: ActorData): Option<Ref> {
    if d.redirect.Some? then d.redirect else s.globalRedirect
  }

  function FlushLine(s: State, aid: nat, forced: bool): State {
    if aid !in s.data then s
    else
      var d := s.data[aid];
      if d.line == "" || (d.line[|d.line| - 1] != '\n' && !forced) then s
      else s.(data := s.data[aid := d.(line := "")],
              log := s.log + [Emission(aid, Destination(s, d), d.line, forced)])
  }

  /** The handle `get_sink_handle` returns; `opens` says whether a missing sink can be made. */
  function SinkFor(s: State, fn: string, opens: bool): Option<Ref> {
    if fn in s.cache then Some(Ref(fn, s.cache[fn].gen))
    else if fn != "" && opens then Some(Ref(fn, s.nextGen))
    else None
  }

  function WithSink(s: State, fn: string, opens: bool): State {
    if fn !in s.cache && fn != "" && opens
    then s.(cache := s.cache[fn := Entry(s.nextGen, 0)], nextGen := s.nextGen + 1)
    else s
  }

  /** Every handle points to an entry it is counted in. */
  predicate Usable(s: State) {
    && Releasable(s.cache, s.globalRedirect)
    && forall aid :: aid in s.data ==> Releasable(s.cache, s.data[aid].redirect)
  }

  /** `handle = get_sink_handle(...)`: a temporary handle, the assignment, the temporary's destructor. */
  function Redirected(s: State, mine: Option<Ref>, fn: string, opens: bool): Cache
    requires Releasable(s.cache, mine)
  {
    var temp := SinkFor(s, fn, opens);
    var c := WithSink(s, fn, opens).cache;
    if temp.None? then Assigned(c, mine, None)
    else
      assert Live(c, temp.value);
      Cleared(Assigned(Acquired(c, temp.value), mine, temp), temp)
  }

  function Receive(s: State, m: Message): State
    requires Usable(s)
  {
    if s.done then s
    else
      match m
      case Add(aid, text) =>
        if text == "" || aid == INVALID_ACTOR_ID then s
        else
          FlushLine(WithText(s, aid, text), aid, false)
      case Flush(aid) => FlushLine(s, aid, true)
      case Delete(aid) =>
        if aid !in s.data then s
        else
          var r := FlushLine(s, aid, true);
          r.(cache := Cleared(r.cache, r.data[aid].redirect), data := r.data - {aid})
      case RedirectAll(fn, opens) =>
        var r := WithSink(s, fn, opens);
        r.(cache := Redirected(s, s.globalRedirect, fn, opens), globalRedirect := SinkFor(s, fn, opens))
      case Redirect(aid, fn, opens) =>
        if aid == INVALID_ACTOR_ID then s
        else
          var q := WithData(s, aid);
          var r := WithSink(q, fn, opens);
          r.(cache := Redirected(q, q.data[aid].redirect, fn, opens),
             data := q.data[aid := q.data[aid].(redirect := SinkFor(q, fn, opens))])
      case Exit => s.(done := true)
  }

  // ----- The invariant of the use counts

  function Holders(data: map<nat, ActorData>, r: Ref): set<nat> {
    set aid | aid in data && data[aid].redirect == Some(r)
  }

  /** The live handles to an entry. */
  function Handles(s: State, r: Ref): nat {
    |Holders(s.data, r)| + (if s.globalRedirect == Some(r) then 1 else 0)
  }

  /** A cached sink is in use, and its use count is the number of its handles. */
  predicate Counted(s: State, name: string) {
    name in s.cache ==>
      var e := s.cache[name];
      e.gen < s.nextGen && e.uses > 0 && e.uses == Handles(s, Ref(name, e.gen))
  }

  /** No handle refers to an erased entry. */
  ghost predicate AllLive(s: State) {
    && (s.globalRedirect.Some? ==> Live(s.cache, s.globalRedirect.value))
    && (forall aid :: aid in s.data && s.data[aid].redirect.Some? ==> Live(s.cache, s.data[aid].redirect.value))
  }

  ghost predicate SinkInv(s: State) {
    AllLive(s) && forall name :: Counted(s, name)
  }

  lemma InvIsUsable(s: State)
    requires SinkInv(s)
    ensures Usable(s)
  {
    if s.globalRedirect.Some? {
      assert Counted(s, s.globalRedirect.value.name);
    }
    forall aid | aid in s.data && s.data[aid].redirect.Some? ensures Releasable(s.cache, s.data[aid].redirect) {
      assert Counted(s, s.data[aid].redirect.value.name);
    }
  }

  lemma HoldersUpdate(data: map<nat, ActorData>, aid: nat, d: ActorData, r: Ref)
    ensures |Holders(data[aid := d], r)|
            == |Holders(data, r)|
               - (if aid in data && data[aid].redirect == Some(r) then 1 else 0)
               + (if d.redirect == Some(r) then 1 else 0)
  {
    var before, after := Holders(data, r), Holders(data[aid := d], r);
    var others := before - {aid};
    assert before == if aid in before then others + {aid} else others;
    assert after == if d.redirect == Some(r) then others + {aid} else others;
  }

  lemma HoldersErase(data: map<nat, ActorData>, aid: nat, r: Ref)
    requires aid in data
    ensures |Holders(data - {aid}, r)|
            == |Holders(data, r)| - (if data[aid].redirect == Some(r) then 1 else 0)
  {
    var before, after := Holders(data, r), Holders(data - {aid}, r);
    assert after == before - {aid};
  }

  lemma HeldByActor(s: State, aid: nat, r: Ref)
    requires aid in s.data && s.data[aid].redirect == Some(r)
    ensures Handles(s, r) > 0
  {
    assert aid in Holders(s.data, r);
    assert |Holders(s.data, r)| > 0;
  }

  /** How often `h` is a handle to `r`: once or not at all. */
  function Once(h: Option<Ref>, r: Ref): nat {
    if h == Some(r) then 1 else 0
  }

  /** The net effect of a reassignment on an entry; one that nobody uses any more is erased. */
  lemma ReassignmentCounts(s: State, mine: Option<Ref>, fn: string, opens: bool, name: string)
    requires Releasable(s.cache, mine) && (mine.Some? ==> mine.value.gen < s.nextGen)
    requires forall n :: n in s.cache ==> s.cache[n].uses > 0
    ensures var c, r, temp := WithSink(s, fn, opens).cache, Redirected(s, mine, fn, opens), SinkFor(s, fn, opens);
            Counts(c, r, mine, temp, name)
  {
    var c, temp := WithSink(s, fn, opens).cache, SinkFor(s, fn, opens);
    if temp.None? {
      NoSinkCounts(c, mine, name);
    } else {
      SomeSinkCounts(c, mine, temp.value, name);
    }
  }

  /** From `c` to `r` the entry `name` lost the handle `mine` and gained `temp`. */
  predicate Counts(c: Cache, r: Cache, mine: Option<Ref>, temp: Option<Ref>, name: string) {
    if name !in c then name !in r
    else
      var ref := Ref(name, c[name].gen);
      var uses := c[name].uses - Once(mine, ref) + Once(temp, ref);
      if uses == 0 then name !in r else name in r && r[name].gen == ref.gen && r[name].uses == uses
  }

  lemma NoSinkCounts(c: Cache, mine: Option<Ref>, name: string)
    requires Releasable(c, mine) && (name in c ==> c[name].uses > 0)
    ensures Counts(c, Assigned(c, mine, None), mine, None, name)
  {
  }

  lemma SomeSinkCounts(c: Cache, mine: Option<Ref>, r: Ref, name: string)
    requires Releasable(c, mine) && Live(c, r) && (name in c && name != r.name ==> c[name].uses > 0)
    ensures var q := Acquired(c, r);
            && Releasable(q, mine) && Releasable(Assigned(q, mine, Some(r)), Some(r))
            && Counts(c, Cleared(Assigned(q, mine, Some(r)), Some(r)), mine, Some(r), name)
  {
  }

  /** A state whose cache is what `Redirected` makes of it, and whose handles moved accordingly. */
  lemma ReassignmentKeepsInv(s: State, mine: Option<Ref>, fn: string, opens: bool, t: State)
    requires SinkInv(s) && Releasable(s.cache, mine)
    requires t.cache == Redirected(s, mine, fn, opens) && t.nextGen == WithSink(s, fn, opens).nextGen
    requires forall r :: Handles(t, r) == Handles(s, r) - Once(mine, r) + Once(SinkFor(s, fn, opens), r)
    ensures SinkInv(t)
  {
    if mine.Some? { assert Counted(s, mine.value.name); }
    forall n | n in s.cache ensures s.cache[n].uses > 0 { assert Counted(s, n); }
    forall name ensures Counted(t, name) {
      ReassignedIsCounted(s, mine, fn, opens, t, name);
    }
    forall r | Handles(t, r) > 0 ensures Live(t.cache, r) {
      ReassignedIsLive(s, mine, fn, opens, t, r);
    }
    LiveFromHandles(t);
  }

  lemma ReassignedIsCounted(s: State, mine: Option<Ref>, fn: string, opens: bool, t: State, name: string)
    requires SinkInv(s) && Releasable(s.cache, mine) && (mine.Some? ==> mine.value.gen < s.nextGen)
    requires forall n :: n in s.cache ==> s.cache[n].uses > 0
    requires t.cache == Redirected(s, mine, fn, opens) && t.nextGen == WithSink(s, fn, opens).nextGen
    requires forall r :: Handles(t, r) == Handles(s, r) - Once(mine, r) + Once(SinkFor(s, fn, opens), r)
    ensures Counted(t, name)
  {
    assert Counted(s, name);
    ReassignmentCounts(s, mine, fn, opens, name);
    if name in WithSink(s, fn, opens).cache && name !in s.cache {
      NoHandlesToFuture(s, Ref(name, s.nextGen));
    }
  }

  lemma ReassignedIsLive(s: State, mine: Option<Ref>, fn: string, opens: bool, t: State, r: Ref)
    requires SinkInv(s) && Releasable(s.cache, mine) && (mine.Some? ==> mine.value.gen < s.nextGen)
    requires forall n :: n in s.cache ==> s.cache[n].uses > 0
    requires t.cache == Redirected(s, mine, fn, opens)
    requires Handles(t, r) == Handles(s, r) - Once(mine, r) + Once(SinkFor(s, fn, opens), r) > 0
    ensures Live(t.cache, r)
  {
    ReassignmentCounts(s, mine, fn, opens, r.name);
    HandlesAreLive(s, r);
    if r.name in s.cache { assert Counted(s, r.name); }
  }

  lemma NoHandlesToFuture(s: State, r: Ref)
    requires SinkInv(s) && r.gen >= s.nextGen
    ensures Handles(s, r) == 0
  {
    assert Counted(s, r.name);
    assert Holders(s.data, r) == {};
  }

  lemma HandlesAreLive(s: State, r: Ref)
    requires SinkInv(s)
    ensures Handles(s, r) > 0 ==> Live(s.cache, r)
  {
    if !Live(s.cache, r) {
      assert Holders(s.data, r) == {};
    }
  }

  lemma LiveFromHandles(t: State)
    requires forall r :: Handles(t, r) > 0 ==> Live(t.cache, r)
    ensures AllLive(t)
  {
    forall aid | aid in t.data && t.data[aid].redirect.Some? ensures Live(t.cache, t.data[aid].redirect.value) {
      HeldByActor(t, aid, t.data[aid].redirect.value);
    }
    if t.globalRedirect.Some? {
      assert Handles(t, t.globalRedirect.value) > 0;
    }
  }

  /** Buffering and flushing move no handle. */
  lemma SameHandles(s: State, t: State)
    requires SinkInv(s) && t.cache == s.cache && t.nextGen == s.nextGen && t.globalRedirect == s.globalRedirect
    requires forall r :: Holders(t.data, r) == Holders(s.data, r)
    ensures SinkInv(t)
  {
    forall name ensures Counted(t, name) {
      assert Counted(s, name);
    }
    forall r ensures Handles(t, r) > 0 ==> Live(t.cache, r) {
      HandlesAreLive(s, r);
      assert Handles(t, r) == Handles(s, r);
    }
    LiveFromHandles(t);
  }

  lemma FlushKeepsSinks(s: State, aid: nat, forced: bool)
    requires SinkInv(s)
    ensures SinkInv(FlushLine(s, aid, forced))
  {
    SameHandles(s, FlushLine(s, aid, forced));
  }

  lemma AddKeepsSinks(s: State, aid: nat, text: string)
    requires SinkInv(s)
    ensures SinkInv(WithText(s, aid, text))
  {
    SameHandles(s, WithText(s, aid, text));
  }

  lemma DeleteKeepsSinks(s: State, aid: nat)
    requires SinkInv(s) && aid in s.data
    ensures Releasable(s.cache, s.data[aid].redirect)
    ensures SinkInv(s.(cache := Cleared(s.cache, s.data[aid].redirect), data := s.data - {aid}))
  {
    InvIsUsable(s);
    var mine := s.data[aid].redirect;
    var t := s.(cache := Cleared(s.cache, mine), data := s.data - {aid});
    forall r ensures Handles(t, r) == Handles(s, r) - Once(mine, r) {
      HoldersErase(s.data, aid, r);
    }
    forall name ensures Counted(t, name) {
      assert Counted(s, name);
    }
    forall r | Handles(t, r) > 0 ensures Live(t.cache, r) {
      HandlesAreLive(s, r);
      assert Counted(s, r.name);
    }
    LiveFromHandles(t);
  }

  lemma ReceiveKeepsSinks(s: State, m: Message)
    requires SinkInv(s) && Usable(s)
    ensures SinkInv(Receive(s, m))
  {
    if !s.done {
      match m
      case Add(aid, text) =>
        if text != "" && aid != INVALID_ACTOR_ID {
          AddKeepsSinks(s, aid, text);
          FlushKeepsSinks(WithText(s, aid, text), aid, false);
        }
      case Flush(aid) => FlushKeepsSinks(s, aid, true);
      case Delete(aid) =>
        if aid in s.data {
          FlushKeepsSinks(s, aid, true);
          DeleteKeepsSinks(FlushLine(s, aid, true), aid);
        }
      case RedirectAll(fn, opens) =>
        ReassignmentKeepsInv(s, s.globalRedirect, fn, opens, Receive(s, m));
      case Redirect(aid, fn, opens) =>
        if aid != INVALID_ACTOR_ID {
          RedirectKeepsSinks(s, aid, fn, opens);
        }
      case Exit => SameHandles(s, Receive(s, m));
    }
  }

  lemma RedirectKeepsSinks(s: State, aid: nat, fn: string, opens: bool)
    requires SinkInv(s) && Usable(s) && aid != INVALID_ACTOR_ID && !s.done
    ensures SinkInv(Receive(s, Redirect(aid, fn, opens)))
  {
    var q, t := WithData(s, aid), Receive(s, Redirect(aid, fn, opens));
    SameHandles(s, q);
    var d := q.data[aid].(redirect := SinkFor(q, fn, opens));
    forall r ensures Handles(t, r) == Handles(q, r) - Once(q.data[aid].redirect, r) + Once(SinkFor(q, fn, opens), r) {
      HoldersUpdate(q.data, aid, d, r);
    }
    ReassignmentKeepsInv(q, q.data[aid].redirect, fn, opens, t);
  }

  // ----- Whole runs

  predicate StepsTo(r: State, m: Message, s: State) {
    Usable(r) && s == Receive(r, m)
  }

  ghost predicate Reaches(ms: seq<Message>, s: State)
    decreases |ms|
  {
    if ms == [] then s == Start
    else
      var m := ms[|ms| - 1];
      exists r :: Reaches(ms[..|ms| - 1], r) && StepsTo(r, m, s)
  }

  lemma {:induction false} ReachableSinks(ms: seq<Message>, s: State)
    requires Reaches(ms, s)
    ensures SinkInv(s) && Usable(s)
    decreases |ms|
  {
    if ms != [] {
      var front, m := ms[..|ms| - 1], ms[|ms| - 1];
      var r :| Reaches(front, r) && StepsTo(r, m, s);
      ReachableSinks(front, r);
      ReceiveKeepsSinks(r, m);
    }
    InvIsUsable(s);
  }

  /** No message sequence leads to a handle that cannot be released: every message can be received. */
  lemma EveryMessageIsReceived(ms: seq<Message>, s: State, m: Message)
    requires Reaches(ms, s)
    ensures Usable(s) && Reaches(ms + [m], Receive(s, m))
  {
    ReachableSinks(ms, s);
    OneMoreMessage(ms, s, m, Receive(s, m));
  }

  lemma OneMoreMessage(ms: seq<Message>, r: State, m: Message, s: State)
    requires Reaches(ms, r) && StepsTo(r, m, s)
    ensures Reaches(ms + [m], s)
  {
    var more := ms + [m];
    assert more[..|more| - 1] == ms && more[|more| - 1] == m;
  }

  /**
   After every message the cache holds exactly the sinks some handle refers to, each with the number
   of its handles as use count.
   */
  lemma UseCountsAreExact(ms: seq<Message>, s: State, r: Ref)
    requires Reaches(ms, s)
    ensures Live(s.cache, r) <==> Handles(s, r) > 0
    ensures Live(s.cache, r) ==> s.cache[r.name].uses == Handles(s, r)
  {
    ReachableSinks(ms, s);
    assert Counted(s, r.name);
    HandlesAreLive(s, r);
  }

  // ----- The text of each actor

  /** What an actor added, until the printer exits. */
  function Added(ms: seq<Message>, aid: nat): string
    requires aid != INVALID_ACTOR_ID
  {
    if ms == [] then ""
    else
      var m := ms[|ms| - 1];
      Added(ms[..|ms| - 1], aid) + (if m.Add? && m.aid == aid && Exit !in ms then m.text else "")
  }

  function Emitted(log: seq<Emission>, aid: nat): string {
    if log == [] then ""
    else
      var e := log[|log| - 1];
      Emitted(log[..|log| - 1], aid) + (if e.aid == aid then e.text else "")
  }

  function Buffered(s: State, aid: nat): string {
    if aid in s.data then s.data[aid].line else ""
  }

  /** An emission is a non-empty piece of text, and a whole number of lines unless it was forced. */
  predicate WellFormed(e: Emission) {
    e.text != "" && (e.forced || e.text[|e.text| - 1] == '\n')
  }

  /** The text emitted for an actor, then its buffered line. */
  function Text(s: State, aid: nat): string {
    Emitted(s.log, aid) + Buffered(s, aid)
  }

  lemma FlushKeepsText(s: State, aid: nat, forced: bool, x: nat)
    ensures var r := FlushLine(s, aid, forced);
            && Text(r, x) == Text(s, x)
            && (forced ==> Buffered(r, aid) == "")
            && (forall e :: e in r.log && e !in s.log ==> WellFormed(e))
  {
    var r := FlushLine(s, aid, forced);
    if r.log != s.log {
      assert r.log[..|s.log|] == s.log;
      if x == aid {
        assert Buffered(r, x) == "" && Emitted(r.log, x) == Emitted(s.log, x) + Buffered(s, x);
      } else {
        assert Emitted(r.log, x) == Emitted(s.log, x) + "";
      }
    }
  }

  lemma ReceiveKeepsText(s: State, m: Message, x: nat)
    requires Usable(s) && x != INVALID_ACTOR_ID
    ensures var r := Receive(s, m);
            && Text(r, x) == Text(s, x) + (if m.Add? && m.aid == x && !s.done then m.text else "")
            && (forall e :: e in r.log && e !in s.log ==> WellFormed(e))
            && r.done == (s.done || m.Exit?)
  {
    assert Text(s, x) + "" == Text(s, x);
    if !s.done {
      match m
      case Add(aid, text) =>
        if text != "" && aid != INVALID_ACTOR_ID {
          AddKeepsText(s, aid, text, x);
        }
      case Flush(aid) => FlushKeepsText(s, aid, true, x);
      case Delete(aid) => DeleteKeepsText(s, aid, x);
      case _ =>
    }
  }

  lemma AddKeepsText(s: State, aid: nat, text: string, x: nat)
    ensures var r := FlushLine(WithText(s, aid, text), aid, false);
            && Text(r, x) == Text(s, x) + (if x == aid then text else "")
            && (forall e :: e in r.log && e !in s.log ==> WellFormed(e))
  {
    FlushKeepsText(WithText(s, aid, text), aid, false, x);
    BufferGrows(s, aid, text, x);
  }

  lemma BufferGrows(s: State, aid: nat, text: string, x: nat)
    ensures var q := WithText(s, aid, text);
            q.log == s.log && Text(q, x) == Text(s, x) + (if x == aid then text else "")
  {
    var q := WithText(s, aid, text);
    assert Buffered(q, x) == Buffered(s, x) + (if x == aid then text else "");
    assert Text(s, x) + "" == Text(s, x);
  }

  lemma DeleteKeepsText(s: State, aid: nat, x: nat)
    requires Usable(s) && !s.done
    ensures var r := Receive(s, Delete(aid));
            && Text(r, x) == Text(s, x)
            && (forall e :: e in r.log && e !in s.log ==> WellFormed(e))
  {
    var q, r := FlushLine(s, aid, true), Receive(s, Delete(aid));
    FlushKeepsText(s, aid, true, x);
    assert r.log == q.log && Buffered(r, x) == Buffered(q, x);
  }

  lemma {:induction false} ReachableText(ms: seq<Message>, s: State, x: nat)
    requires Reaches(ms, s) && x != INVALID_ACTOR_ID
    ensures Text(s, x) == Added(ms, x)
    ensures forall e :: e in s.log ==> WellFormed(e)
    ensures s.done <==> Exit in ms
    decreases |ms|
  {
    if ms != [] {
      var front, m := ms[..|ms| - 1], ms[|ms| - 1];
      assert ms == front + [m];
      var r :| Reaches(front, r) && StepsTo(r, m, s);
      ReachableText(front, r, x);
      ReceiveKeepsText(r, m, x);
    }
  }

  /**
   For every actor and every message sequence, the text emitted for the actor followed by its buffered
   line is all the text it added: nothing is lost, repeated or reordered, also not by its deletion.
   */
  lemma TextIsConserved(ms: seq<Message>, s: State, aid: nat)
    requires Reaches(ms, s) && aid != INVALID_ACTOR_ID
    ensures Emitted(s.log, aid) + Buffered(s, aid) == Added(ms, aid)
    ensures aid !in s.data ==> Emitted(s.log, aid) == Added(ms, aid)
  {
    ReachableText(ms, s, aid);
  }

  /** Text that was not forced out ends a line. */
  lemma UnforcedTextEndsLines(ms: seq<Message>, s: State, e: Emission)
    requires Reaches(ms, s) && e in s.log
    ensures e.text != "" && (!e.forced ==> e.text[|e.text| - 1] == '\n')
  {
    ReachableText(ms, s, 1);
  }

  /** Text only goes to a sink that is open: what a message emits goes to the console or a cached sink. */
  lemma EmissionsGoToOpenSinks(ms: seq<Message>, s: State, m: Message, k: nat)
    requires Reaches(ms, s)
    ensures Usable(s) && |s.log| <= |Receive(s, m).log| && Receive(s, m).log[..|s.log|] == s.log
    ensures |s.log| <= k < |Receive(s, m).log| ==>
              var e := Receive(s, m).log[k];
              && (e.dest.Some? ==> Live(s.cache, e.dest.value))
              && e.dest == if e.aid in s.data && s.data[e.aid].redirect.Some?
                           then s.data[e.aid].redirect else s.globalRedirect
  {
    ReachableSinks(ms, s);
  }

  lemma FlushEffect(s: State, aid: nat, forced: bool)
    requires aid in s.data && s.data[aid].line != ""
    requires forced || s.data[aid].line[|s.data[aid].line| - 1] == '\n'
    ensures var d := s.data[aid];
            FlushLine(s, aid, forced)
            == s.(data := s.data[aid := d.(line := "")],
                  log := s.log + [Emission(aid, Destination(s, d), d.line, forced)])
  {
  }

  // ----- The printer object

  /** The handles are objects that count themselves in the cache they share. */
  class PrinterLoop {
    const cache: SinkCache
    const globalRedirect: SinkHandle
    var nextGen: nat
    var lines: map<nat, string>
    var redirects: map<nat, SinkHandle>
    var log: seq<Emission>
    var done: bool

    ghost predicate Belongs(h: SinkHandle)
      reads h
    {
      h.cache == null || h.cache == cache
    }

    ghost predicate Valid()
      reads this, globalRedirect, redirects.Values
    {
      && lines.Keys == redirects.Keys
      && Belongs(globalRedirect)
      && (forall aid :: aid in redirects ==> Belongs(redirects[aid]) && redirects[aid] != globalRedirect)
      && (forall a, b :: a in redirects && b in redirects && a != b ==> redirects[a] != redirects[b])
    }

    ghost function Data(): map<nat, ActorData>
      requires Valid()
      reads this, globalRedirect, redirects.Values
    {
      map aid | aid in lines :: ActorData(lines[aid], redirects[aid].View())
    }

    ghost function View(): State
      requires Valid()
      reads this, cache, globalRedirect, redirects.Values
    {
      State(cache.entries, nextGen, globalRedirect.View(), Data(), log, done)
    }

    constructor ()
      ensures Valid() && View() == Start
      ensures fresh(cache) && fresh(globalRedirect)
    {
      cache := new SinkCache();
      globalRedirect := new SinkHandle.Empty();
      nextGen, lines, redirects, log, done := 0, map[], map[], [], false;
    }

    method GetData(aid: nat)
      requires Valid()
      modifies `lines, `redirects
      ensures Valid() && View() == WithData(old(View()), aid) && aid in redirects
      ensures forall h :: h in redirects.Values ==> h in old(redirects.Values) || fresh(h)
    {
      if aid !in lines {
        var redirect := new SinkHandle.Empty();
        lines, redirects := lines[aid := ""], redirects[aid := redirect];
        OneActorMore(aid);
      }
    }

    twostate lemma OneActorMore(aid: nat)
      requires old(Valid()) && Valid() && aid !in old(lines) && aid in lines
      requires lines == old(lines)[aid := ""] && redirects == old(redirects)[aid := redirects[aid]]
      requires redirects[aid].View() == None
      requires forall b :: b in old(redirects) ==> redirects[b].View() == old(redirects[b].View())
      ensures Data() == old(Data())[aid := ActorData("", None)]
    {
    }

    method AddText(aid: nat, text: string)
      requires Valid() && aid in lines
      modifies `lines
      ensures Valid() && View() == WithText(old(View()), aid, text)
    {
      SetLine(aid, lines[aid] + text);
    }

    method SetLine(aid: nat, line: string)
      requires Valid() && aid in lines
      modifies `lines
      ensures Valid() && Data() == old(Data())[aid := old(Data())[aid].(line := line)]
    {
      ghost var before := Data();
      lines := lines[aid := line];
      assert Data() == before[aid := before[aid].(line := line)];
    }

    method FlushData(aid: nat, forced: bool)
      requires Valid()
      modifies `lines, `log
      ensures Valid() && View() == FlushLine(old(View()), aid, forced)
    {
      if aid in lines {
        var line := lines[aid];
        assert Data()[aid].line == line;
        if line != "" && (line[|line| - 1] == '\n' || forced) {
          FlushEffect(View(), aid, forced);
          var dest := SinkOf(aid);
          EmitLine(aid, dest, forced);
        }
      }
    }

    method EmitLine(aid: nat, dest: Option<Ref>, forced: bool)
      requires Valid() && aid in lines
      modifies `lines, `log
      ensures Valid()
      ensures View() == old(View()).(data := old(Data())[aid := old(Data())[aid].(line := "")],
                                     log := old(log) + [Emission(aid, dest, old(lines[aid]), forced)])
    {
      var line := lines[aid];
      SetLine(aid, "");
      log := log + [Emission(aid, dest, line, forced)];
    }

    method SinkOf(aid: nat) returns (dest: Option<Ref>)
      requires Valid() && aid in lines
      ensures dest == Destination(View(), Data()[aid])
    {
      if redirects[aid].cache != null {
        dest := Some(redirects[aid].iter);
      } else if globalRedirect.cache != null {
        dest := Some(globalRedirect.iter);
      } else {
        dest := None;
      }
    }

    /** Looks the sink up or makes it; the temporary handle it returns counts itself. */
    method GetSinkHandle(fn: string, opens: bool) returns (temp: SinkHandle)
      requires Valid()
      modifies cache, `nextGen
      ensures Valid() && fresh(temp) && Belongs(temp) && temp.View() == SinkFor(old(View()), fn, opens)
      ensures nextGen == WithSink(old(View()), fn, opens).nextGen
      ensures var c := WithSink(old(View()), fn, opens).cache;
              if temp.View().None? then cache.entries == c
              else Live(c, temp.View().value) && cache.entries == Acquired(c, temp.View().value)
    {
      if fn !in cache.entries {
        if fn == "" || !opens {
          temp := new SinkHandle.Empty();
          return;
        }
        cache.entries := cache.entries[fn := Entry(nextGen, 0)];
        nextGen := nextGen + 1;
      }
      temp := new SinkHandle.At(cache, Ref(fn, cache.entries[fn].gen));
    }

    /** Assigns the temporary handle to `handle` and destroys the temporary. */
    method Reassign(handle: SinkHandle, fn: string, opens: bool)
      requires Valid() && Belongs(handle) && Releasable(cache.entries, handle.View())
      modifies cache, handle, `nextGen
      ensures Belongs(handle) && handle.View() == SinkFor(old(View()), fn, opens)
      ensures nextGen == WithSink(old(View()), fn, opens).nextGen
      ensures cache.entries == Redirected(old(View()), old(handle.View()), fn, opens)
    {
      var temp := GetSinkHandle(fn, opens);
      handle.Assign(temp);
      temp.Release();
    }

    method Handle(m: Message)
      requires Valid() && Usable(View()) && !done
      modifies this, cache, globalRedirect, redirects.Values
      ensures Valid() && View() == Receive(old(View()), m)
      ensures forall h :: h in redirects.Values ==> h in old(redirects.Values) || fresh(h)
    {
      match m {
        case Add(aid, text) => HandleAdd(aid, text);
        case Flush(aid) => FlushData(aid, true);
        case Delete(aid) => HandleDelete(aid);
        case RedirectAll(fn, opens) => HandleRedirectAll(fn, opens);
        case Redirect(aid, fn, opens) => HandleRedirect(aid, fn, opens);
        case Exit => done := true;
      }
    }

    method HandleAdd(aid: nat, text: string)
      requires Valid() && Usable(View()) && !done
      modifies `lines, `redirects, `log
      ensures Valid() && View() == Receive(old(View()), Add(aid, text))
      ensures forall h :: h in redirects.Values ==> h in old(redirects.Values) || fresh(h)
    {
      if text != "" && aid != INVALID_ACTOR_ID {
        GetData(aid);
        AddText(aid, text);
        FlushData(aid, false);
      }
    }

    method HandleRedirectAll(fn: string, opens: bool)
      requires Valid() && Usable(View()) && !done
      modifies `nextGen, cache, globalRedirect
      ensures Valid() && View() == Receive(old(View()), RedirectAll(fn, opens))
    {
      Reassign(globalRedirect, fn, opens);
    }

    method HandleRedirect(aid: nat, fn: string, opens: bool)
      requires Valid() && Usable(View()) && !done
      modifies `lines, `redirects, `nextGen, cache, redirects.Values
      ensures Valid() && View() == Receive(old(View()), Redirect(aid, fn, opens))
      ensures forall h :: h in redirects.Values ==> h in old(redirects.Values) || fresh(h)
    {
      if aid != INVALID_ACTOR_ID {
        GetData(aid);
        assert aid in View().data;
        RedirectActor(aid, fn, opens);
      }
    }

    method RedirectActor(aid: nat, fn: string, opens: bool)
      requires Valid() && aid in redirects && Releasable(cache.entries, redirects[aid].View())
      modifies cache, redirects[aid], `nextGen
      ensures Valid()
      ensures var q := old(View());
              View() == WithSink(q, fn, opens).(
                cache := Redirected(q, q.data[aid].redirect, fn, opens),
                data := q.data[aid := q.data[aid].(redirect := SinkFor(q, fn, opens))])
    {
      Reassign(redirects[aid], fn, opens);
      OneHandleMoved(aid);
    }

    twostate lemma OneHandleMoved(aid: nat)
      requires old(Valid()) && Valid() && aid in redirects && lines == old(lines) && redirects == old(redirects)
      requires forall b :: b in redirects && b != aid ==> redirects[b].View() == old(redirects[b].View())
      ensures Data() == old(Data())[aid := old(Data())[aid].(redirect := redirects[aid].View())]
    {
    }

    /** The handle of a deleted actor is destroyed with its data. */
    method HandleDelete(aid: nat)
      requires Valid() && Usable(View()) && !done
      modifies this, cache, redirects.Values
      ensures Valid() && View() == Receive(old(View()), Delete(aid))
      ensures redirects.Values <= old(redirects.Values)
    {
      if aid in lines {
        FlushData(aid, true);
        DropData(aid);
      }
    }

    method DropData(aid: nat)
      requires Valid() && aid in lines && Releasable(cache.entries, redirects[aid].View())
      modifies `lines, `redirects, cache, redirects[aid]
      ensures Valid() && redirects.Values <= old(redirects.Values)
      ensures View() == old(View()).(cache := Cleared(old(cache.entries), old(redirects[aid].View())),
                                     data := old(Data()) - {aid})
    {
      redirects[aid].Release();
      lines, redirects := lines - {aid}, redirects - {aid};
      OneActorLeft(aid);
    }

    twostate lemma OneActorLeft(aid: nat)
      requires old(Valid()) && Valid() && lines == old(lines) - {aid} && redirects == old(redirects) - {aid}
      requires forall b :: b in redirects ==> redirects[b].View() == old(redirects[b].View())
      ensures Data() == old(Data()) - {aid}
    {
    }
  }
}
