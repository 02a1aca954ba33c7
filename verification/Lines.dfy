/**
 When the printer emits text and where to: complete lines at once, the rest when it is flushed or its
 actor is deleted, to the sink that the redirections name.
 */
module Lines {
  import opened Wrappers
  import opened Sinks
  import opened Printer

  predicate EndsLine(text: string) {
    text != "" && text[|text| - 1] == '\n'
  }

  // ----- Complete lines

  predicate NoLineWaits(s: State) {
    forall aid :: aid in s.data ==> !EndsLine(s.data[aid].line)
  }

  lemma ReceiveKeepsLines(s: State, m: Message)
    requires Usable(s) && NoLineWaits(s)
    ensures NoLineWaits(Receive(s, m))
  {
  }

  /** No complete line ever waits in the buffer. */
  lemma {:induction false} NoCompleteLineBuffered(ms: seq<Message>, s: State)
    requires Reaches(ms, s)
    ensures NoLineWaits(s)
    decreases |ms|
  {
    if ms != [] {
      var front, m := ms[..|ms| - 1], ms[|ms| - 1];
      var r :| Reaches(front, r) && StepsTo(r, m, s);
      NoCompleteLineBuffered(front, r);
      ReceiveKeepsLines(r, m);
    }
  }

  /** A text that ends a line is emitted at once, behind what was buffered, and nothing stays behind. */
  lemma LinesAreEmitted(ms: seq<Message>, s: State, aid: nat, text: string)
    requires Reaches(ms, s) && !s.done && aid != INVALID_ACTOR_ID && EndsLine(text)
    ensures Usable(s)
    ensures var t := Receive(s, Add(aid, text));
            && Buffered(t, aid) == ""
            && t.log == s.log + [Emission(aid, SinkOf(s, aid), Buffered(s, aid) + text, false)]
            && Emitted(t.log, aid) == Added(ms, aid) + text
  {
    EveryMessageIsReceived(ms, s, Exit);
    TextIsConserved(ms, s, aid);
    OneMoreEmission(s.log, Emission(aid, SinkOf(s, aid), Buffered(s, aid) + text, false));
    Regroup(Emitted(s.log, aid), Buffered(s, aid), text);
    LineIsEmitted(s, aid, text);
  }

  lemma LineIsEmitted(s: State, aid: nat, text: string)
    requires Usable(s) && !s.done && aid != INVALID_ACTOR_ID && EndsLine(text)
    ensures var t := Receive(s, Add(aid, text));
            && Buffered(t, aid) == ""
            && t.log == s.log + [Emission(aid, SinkOf(s, aid), Buffered(s, aid) + text, false)]
  {
    TextIsBuffered(s, aid, text);
    FlushEffect(WithText(s, aid, text), aid, false);
  }

  lemma TextIsBuffered(s: State, aid: nat, text: string)
    requires EndsLine(text)
    ensures var q := WithText(s, aid, text);
            && q.log == s.log && aid in q.data
            && EndsLine(q.data[aid].line) && q.data[aid].line == Buffered(s, aid) + text
            && Destination(q, q.data[aid]) == SinkOf(s, aid)
  {
    var line := Buffered(s, aid) + text;
    assert line[|line| - 1] == text[|text| - 1];
  }

  lemma OneMoreEmission(log: seq<Emission>, e: Emission)
    ensures Emitted(log + [e], e.aid) == Emitted(log, e.aid) + e.text
  {
    assert (log + [e])[..|log|] == log;
  }

  lemma Regroup(a: string, b: string, c: string)
    ensures a + b + c == a + (b + c)
  {
  }

  /** A flush, or the deletion of the actor, emits all that is left of its text. */
  lemma FlushEmptiesBuffer(ms: seq<Message>, s: State, aid: nat)
    requires Reaches(ms, s) && !s.done && aid != INVALID_ACTOR_ID
    ensures Usable(s)
    ensures var t, u := Receive(s, Flush(aid)), Receive(s, Delete(aid));
            && Buffered(t, aid) == "" && Emitted(t.log, aid) == Added(ms, aid)
            && aid !in u.data && Emitted(u.log, aid) == Added(ms, aid)
  {
    EveryMessageIsReceived(ms, s, Flush(aid));
    EveryMessageIsReceived(ms, s, Delete(aid));
    Unadded(ms, Flush(aid), aid);
    Unadded(ms, Delete(aid), aid);
    TextIsConserved(ms + [Flush(aid)], Receive(s, Flush(aid)), aid);
    TextIsConserved(ms + [Delete(aid)], Receive(s, Delete(aid)), aid);
    FlushKeepsText(s, aid, true, aid);
  }

  lemma Unadded(ms: seq<Message>, m: Message, aid: nat)
    requires aid != INVALID_ACTOR_ID && !m.Add?
    ensures Added(ms + [m], aid) == Added(ms, aid)
  {
    assert (ms + [m])[..|ms|] == ms;
  }

  // ----- Redirections

  function NameOf(h: Option<Ref>): Option<string> {
    if h.Some? then Some(h.value.name) else None
  }

  function OwnSink(s: State, aid: nat): Option<Ref> {
    if aid in s.data then s.data[aid].redirect else None
  }

  /** The actor's own sink, else the one for all, else the console. */
  function SinkOf(s: State, aid: nat): Option<Ref> {
    if OwnSink(s, aid).Some? then OwnSink(s, aid) else s.globalRedirect
  }

  /** The sink that a redirection to `fn` leads to: an open one, or a new one if it can be made. */
  function Opened(s: State, fn: string, opens: bool): Option<string> {
    if fn in s.cache || (fn != "" && opens) then Some(fn) else None
  }

  function OwnSinkAfter(s: State, m: Message, aid: nat): Option<string> {
    match m
    case Redirect(x, fn, opens) => if x == aid then Opened(s, fn, opens) else NameOf(OwnSink(s, aid))
    case Delete(x) => if x == aid then None else NameOf(OwnSink(s, aid))
    case _ => NameOf(OwnSink(s, aid))
  }

  function GlobalSinkAfter(s: State, m: Message): Option<string> {
    if m.RedirectAll? then Opened(s, m.fn, m.opens) else NameOf(s.globalRedirect)
  }

  /** Redirections change exactly the sinks they name, a deletion ends one, and nothing else changes any. */
  lemma RedirectionsAreFollowed(ms: seq<Message>, s: State, m: Message, aid: nat)
    requires Reaches(ms, s) && !s.done && aid != INVALID_ACTOR_ID
    ensures Usable(s)
    ensures NameOf(OwnSink(Receive(s, m), aid)) == OwnSinkAfter(s, m, aid)
    ensures NameOf(Receive(s, m).globalRedirect) == GlobalSinkAfter(s, m)
  {
    EveryMessageIsReceived(ms, s, m);
    ReceiveFollows(s, m, aid);
  }

  lemma ReceiveFollows(s: State, m: Message, aid: nat)
    requires Usable(s) && !s.done && aid != INVALID_ACTOR_ID
    ensures NameOf(OwnSink(Receive(s, m), aid)) == OwnSinkAfter(s, m, aid)
    ensures NameOf(Receive(s, m).globalRedirect) == GlobalSinkAfter(s, m)
  {
    match m
    case Add(_, _) => AddFollows(s, m, aid);
    case Flush(_) => FlushFollows(s, m, aid);
    case Delete(_) => DeleteFollows(s, m, aid);
    case Redirect(_, _, _) => RedirectFollows(s, m, aid);
    case _ =>
  }

  lemma AddFollows(s: State, m: Message, aid: nat)
    requires Usable(s) && !s.done && m.Add?
    ensures OwnSink(Receive(s, m), aid) == OwnSink(s, aid)
    ensures Receive(s, m).globalRedirect == s.globalRedirect
  {
  }

  lemma FlushFollows(s: State, m: Message, aid: nat)
    requires Usable(s) && !s.done && m.Flush?
    ensures OwnSink(Receive(s, m), aid) == OwnSink(s, aid)
    ensures Receive(s, m).globalRedirect == s.globalRedirect
  {
  }

  lemma DeleteFollows(s: State, m: Message, aid: nat)
    requires Usable(s) && !s.done && m.Delete?
    ensures OwnSink(Receive(s, m), aid) == if m.aid == aid then None else OwnSink(s, aid)
    ensures Receive(s, m).globalRedirect == s.globalRedirect
  {
  }

  lemma RedirectFollows(s: State, m: Message, aid: nat)
    requires Usable(s) && !s.done && m.Redirect? && aid != INVALID_ACTOR_ID
    ensures NameOf(OwnSink(Receive(s, m), aid)) == OwnSinkAfter(s, m, aid)
    ensures Receive(s, m).globalRedirect == s.globalRedirect
  {
  }

  /** After an exit message nothing is emitted or buffered any more. */
  lemma NothingAfterExit(ms: seq<Message>, s: State, m: Message)
    requires Reaches(ms, s) && Exit in ms
    ensures Usable(s) && Receive(s, m) == s
  {
    EveryMessageIsReceived(ms, s, m);
    ReachableText(ms, s, 1);
  }

  /** The invalid actor id never gets any data, and nothing is ever emitted for it. */
  lemma {:induction false} NothingForInvalidActor(ms: seq<Message>, s: State)
    requires Reaches(ms, s)
    ensures INVALID_ACTOR_ID !in s.data && forall k :: 0 <= k < |s.log| ==> s.log[k].aid != INVALID_ACTOR_ID
    decreases |ms|
  {
    if ms != [] {
      var front, m := ms[..|ms| - 1], ms[|ms| - 1];
      var r :| Reaches(front, r) && StepsTo(r, m, s);
      NothingForInvalidActor(front, r);
      ReceiveIgnoresInvalid(r, m);
    }
  }

  lemma ReceiveIgnoresInvalid(s: State, m: Message)
    requires Usable(s) && INVALID_ACTOR_ID !in s.data
    requires forall k :: 0 <= k < |s.log| ==> s.log[k].aid != INVALID_ACTOR_ID
    ensures INVALID_ACTOR_ID !in Receive(s, m).data
    ensures forall k :: 0 <= k < |Receive(s, m).log| ==> Receive(s, m).log[k].aid != INVALID_ACTOR_ID
  {
  }
}
