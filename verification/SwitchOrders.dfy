/**
 What the orders of the source make the switch do: once it has been told to stop sending to the source,
 or to stop copying to a target, no later packet goes there.
 */
module SwitchOrders {
  import opened Wrappers
  import opened NfActor
  import opened Migration
  import opened Paths
  import opened FlowPaths

  predicate SuffixOf<T(==)>(xs: seq<T>, ys: seq<T>) {
    |xs| <= |ys| && xs == ys[|ys| - |xs|..]
  }

  lemma SuffixIsTransitive<T>(xs: seq<T>, ys: seq<T>, zs: seq<T>)
    requires SuffixOf(xs, ys) && SuffixOf(ys, zs)
    ensures SuffixOf(xs, zs)
  {
  }

  lemma {:induction false} PathInv(c: Config, r: Net, more: seq<Step>, s: Net)
    requires Inv(c, r) && Path(Protocol(c), r, more, s)
    ensures Inv(c, s)
    decreases |more|
  {
    if more == [] {
      NoStep(c, r, s);
    } else {
      var q := LastStep(Protocol(c), r, more, s);
      PathInv(c, r, more[..|more| - 1], q);
      StepKeepsInv(c, q, more[|more| - 1]);
    }
  }

  lemma NoStep(c: Config, r: Net, s: Net)
    requires Path(Protocol(c), r, [], s)
    ensures s == r
  {
    var states :| IsPath(Protocol(c), states, r, [], s);
  }

  // ----- No more packets for the source

  lemma OrderedBySource(c: Config, s: Net)
    requires Inv(c, s) && s.commands != [] && s.commands[0].CancelSend?
    ensures SwitchObey(s).dest == ToTarget(s.commands[0].attempt)
  {
    assert s.commands[0] in s.commands;
  }

  predicate SameOrShorter<T(==)>(xs: seq<T>, ys: seq<T>) {
    xs == ys || (ys != [] && xs == ys[1..])
  }

  lemma ShorterIsSuffix<T>(xs: seq<T>, ys: seq<T>)
    requires SameOrShorter(xs, ys)
    ensures SuffixOf(xs, ys)
  {
  }

  lemma StepKeepsDirection(c: Config, s: Net, a: Step)
    requires Inv(c, s) && Enabled(s, a) && s.dest.ToTarget?
    ensures Next(c, s, a).dest == s.dest && SuffixOf(Next(c, s, a).toSource, s.toSource)
  {
    if a.SwitchCommand? {
      assert s.commands[0] in s.commands;
    }
    ChannelAfter(c, s, a);
    ShorterIsSuffix(Next(c, s, a).toSource, s.toSource);
  }

  lemma ChannelAfter(c: Config, s: Net, a: Step)
    requires Enabled(s, a) && s.dest.ToTarget? && (a.SwitchCommand? ==> s.commands[0].CancelSend?)
    ensures Next(c, s, a).dest == s.dest && SameOrShorter(Next(c, s, a).toSource, s.toSource)
  {
  }

  /**
   When the switch has obeyed the order that the source gives on completion, every packet goes to the
   target of that order: what is on its way to the source only gets less.
   */
  lemma {:induction false} NothingMoreForSource(c: Config, steps: seq<Step>, r: Net, more: seq<Step>, s: Net)
    requires Reaches(c, steps, r) && r.commands != [] && r.commands[0].CancelSend?
    requires Path(Protocol(c), SwitchObey(r), more, s)
    ensures s.dest == ToTarget(r.commands[0].attempt) && SuffixOf(s.toSource, r.toSource)
    decreases |more|
  {
    ReachableInv(c, steps, r);
    OrderedBySource(c, r);
    if more == [] {
      NoStep(c, SwitchObey(r), s);
    } else {
      var front, a := more[..|more| - 1], more[|more| - 1];
      var q := LastStep(Protocol(c), SwitchObey(r), more, s);
      NothingMoreForSource(c, steps, r, front, q);
      StepKeepsInv(c, r, SwitchCommand);
      PathInv(c, SwitchObey(r), front, q);
      StepKeepsDirection(c, q, a);
      SuffixIsTransitive(s.toSource, q.toSource, r.toSource);
    }
  }

  // ----- No more packets for the target of a cancelled attempt

  /** An order to copy comes before the order that cancels it. */
  predicate CopyBeforeCancel(s: Net) {
    && (forall a, b :: 0 <= a < b < |s.commands| && s.commands[a].CancelCopy? ==>
                         s.commands[b] != CopyTo(s.commands[a].attempt))
    && (forall x :: x in s.commands && x.CancelCopy? && Current(s, x.attempt) ==> s.source.mode == HandlePackets)
  }

  lemma StepKeepsOrder(c: Config, s: Net, a: Step)
    requires Inv(c, s) && Enabled(s, a) && CopyBeforeCancel(s)
    ensures CopyBeforeCancel(Next(c, s, a))
  {
    var r := Next(c, s, a);
    if a.SwitchCommand? {
      assert forall k :: 0 <= k < |r.commands| ==> r.commands[k] == s.commands[k + 1];
      assert forall x :: x in r.commands ==> x in s.commands;
    } else {
      OthersKeepOrder(c, s, a);
    }
  }

  lemma OthersKeepOrder(c: Config, s: Net, a: Step)
    requires Inv(c, s) && Enabled(s, a) && CopyBeforeCancel(s) && !a.SwitchCommand?
    ensures CopyBeforeCancel(Next(c, s, a))
  {
    CommandsGrow(c, s, a);
    NormalStays(c, s, a);
    LongerKeepsOrder(c, s, Next(c, s, a));
  }

  /** A source in normal operation leaves it only for a new attempt. */
  lemma NormalStays(c: Config, s: Net, a: Step)
    requires Inv(c, s) && Enabled(s, a)
    ensures var r := Next(c, s, a);
            && |s.targets| <= |r.targets|
            && (|r.targets| == |s.targets| && s.source.mode == HandlePackets ==> r.source.mode == HandlePackets)
  {
  }

  lemma LongerKeepsOrder(c: Config, s: Net, r: Net)
    requires Bounded(s) && CopyBeforeCancel(s) && |s.targets| <= |r.targets|
    requires |r.targets| == |s.targets| && s.source.mode == HandlePackets ==> r.source.mode == HandlePackets
    requires Longer(s, r)
    ensures CopyBeforeCancel(r)
  {
    if r.commands != s.commands {
      assert r.commands[|s.commands|] in r.commands;
    }
    assert forall x :: x in s.commands ==> x in r.commands;
  }

  /** What a step may add to the orders. */
  lemma CommandsGrow(c: Config, s: Net, a: Step)
    requires Inv(c, s) && Enabled(s, a) && !a.SwitchCommand?
    ensures Longer(s, Next(c, s, a))
  {
  }

  predicate Longer(s: Net, r: Net) {
    || r.commands == s.commands
    || (|r.targets| == |s.targets| > 0
        && var last := |s.targets| - 1;
           || (r.commands == s.commands + [CopyTo(last)] && s.source.mode == WaitPrepare && r.source.mode == WaitStart)
           || (r.commands == s.commands + [CancelCopy(last)] && r.source.mode == HandlePackets)
           || (r.commands == s.commands + [CancelSend(last)] && s.source.mode == WaitComplete))
  }

  lemma {:induction false} ReachableOrder(c: Config, steps: seq<Step>, s: Net)
    requires Reaches(c, steps, s)
    ensures CopyBeforeCancel(s)
    decreases |steps|
  {
    if steps != [] {
      var front, a := steps[..|steps| - 1], steps[|steps| - 1];
      var r :| Reaches(c, front, r) && Steps(c, r, a, s);
      ReachableOrder(c, front, r);
      ReachableInv(c, front, r);
      StepKeepsOrder(c, r, a);
    }
  }

  /** The switch copies nothing to target `i`, and nobody will ask it to. */
  predicate Cancelled(s: Net, i: nat) {
    && i < |s.targets| && s.dest != Copying(i) && s.dest != ToTarget(i)
    && CopyTo(i) !in s.commands && CancelSend(i) !in s.commands
    && (Current(s, i) ==> s.source.mode == HandlePackets)
  }

  lemma ObeyingCancels(c: Config, s: Net)
    requires Inv(c, s) && CopyBeforeCancel(s) && s.commands != [] && s.commands[0].CancelCopy?
    ensures Cancelled(SwitchObey(s), s.commands[0].attempt)
  {
    var x := s.commands[0];
    assert x in s.commands;
    assert forall y :: y in s.commands[1..] ==> y in s.commands && y != CopyTo(x.attempt);
  }

  lemma StepKeepsCancelled(c: Config, s: Net, a: Step, i: nat)
    requires Inv(c, s) && Enabled(s, a) && Cancelled(s, i)
    ensures Cancelled(Next(c, s, a), i)
    ensures SuffixOf(Next(c, s, a).targets[i].inbox, s.targets[i].inbox)
  {
    InboxShrinks(c, s, a, i);
    if a.SwitchCommand? {
      ObeyKeepsCancelled(s, i);
    } else {
      OtherKeepsCancelled(c, s, a, i);
    }
  }

  lemma ObeyKeepsCancelled(s: Net, i: nat)
    requires s.commands != [] && Cancelled(s, i)
    ensures Cancelled(SwitchObey(s), i)
  {
    assert s.commands[0] in s.commands;
    assert forall y :: y in s.commands[1..] ==> y in s.commands;
  }

  lemma OtherKeepsCancelled(c: Config, s: Net, a: Step, i: nat)
    requires Inv(c, s) && Enabled(s, a) && Cancelled(s, i) && !a.SwitchCommand?
    ensures Cancelled(Next(c, s, a), i)
  {
    InboxShrinks(c, s, a, i);
    ModesOfCancelled(c, s, a, i);
    CommandsGrow(c, s, a);
  }

  lemma InboxShrinks(c: Config, s: Net, a: Step, i: nat)
    requires Enabled(s, a) && Cancelled(s, i)
    ensures i < |Next(c, s, a).targets| && SuffixOf(Next(c, s, a).targets[i].inbox, s.targets[i].inbox)
  {
    InboxAfter(c, s, a, i);
    ShorterIsSuffix(Next(c, s, a).targets[i].inbox, s.targets[i].inbox);
  }

  lemma InboxAfter(c: Config, s: Net, a: Step, i: nat)
    requires Enabled(s, a) && i < |s.targets| && s.dest != Copying(i) && s.dest != ToTarget(i)
    ensures i < |Next(c, s, a).targets| && SameOrShorter(Next(c, s, a).targets[i].inbox, s.targets[i].inbox)
  {
  }

  lemma ModesOfCancelled(c: Config, s: Net, a: Step, i: nat)
    requires Enabled(s, a) && Cancelled(s, i)
    ensures Current(Next(c, s, a), i) ==> Next(c, s, a).source.mode == HandlePackets
    ensures !a.SwitchCommand? ==> Next(c, s, a).dest == s.dest
  {
  }

  /**
   When the switch has obeyed the order to cancel an attempt, no later packet is copied to its target:
   what is on its way to it only gets less.
   */
  lemma {:induction false} NothingMoreForTarget(c: Config, steps: seq<Step>, r: Net, more: seq<Step>, s: Net)
    requires Reaches(c, steps, r) && r.commands != [] && r.commands[0].CancelCopy?
    requires Path(Protocol(c), SwitchObey(r), more, s)
    ensures var i := r.commands[0].attempt;
            && i < |r.targets| && Cancelled(s, i)
            && SuffixOf(s.targets[i].inbox, r.targets[i].inbox)
    decreases |more|
  {
    ReachableInv(c, steps, r);
    ReachableOrder(c, steps, r);
    ObeyingCancels(c, r);
    var i := r.commands[0].attempt;
    if more == [] {
      NoStep(c, SwitchObey(r), s);
    } else {
      var front, a := more[..|more| - 1], more[|more| - 1];
      var q := LastStep(Protocol(c), SwitchObey(r), more, s);
      NothingMoreForTarget(c, steps, r, front, q);
      StepKeepsInv(c, r, SwitchCommand);
      PathInv(c, SwitchObey(r), front, q);
      StepKeepsCancelled(c, q, a, i);
      SuffixIsTransitive(s.targets[i].inbox, q.targets[i].inbox, r.targets[i].inbox);
    }
  }
}
