/** What the curl pool does for its clients: requests are served while somebody is idle, and that recurs. */
module CurlService {
  import opened Wrappers
  import opened CurlPool

  /**
   A read request gives a job to an idle worker, which is busy from then on, and is dropped exactly when
   nobody is idle.
   */
  lemma ReadIsServedIff(n: nat, steps: seq<Step>, s: State)
    requires n > 0 && Reaches(n, steps, s)
    ensures Next(s, Read).Some?
    ensures var t := Next(s, Read).value;
            if s.master.idle == [] then t == s
            else
              var w := s.master.idle[|s.master.idle| - 1];
              && t.mail == s.mail + multiset{Job(w)}
              && t.master.busy == s.master.busy + [w] && t.master.idle == s.master.idle[..|s.master.idle| - 1]
              && w !in s.master.busy && w !in t.master.idle
  {
    ReachableInv(n, steps, s);
    StepKeepsInv(n, s, Read);
    if s.master.idle != [] {
      LastIsNotListedTwice(n, s);
    }
  }

  lemma LastIsNotListedTwice(n: nat, s: State)
    requires Listed(s.master) == multiset(Workers(n)) && s.master.idle != []
    ensures var w := s.master.idle[|s.master.idle| - 1];
            w !in s.master.busy && w !in s.master.idle[..|s.master.idle| - 1]
  {
    var k := |s.master.idle| - 1;
    var w := s.master.idle[k];
    ListedOnce(n, s, w);
    var rest := s.master.idle[..k];
    assert s.master.idle == rest + [w];
    assert multiset(rest)[w] == 0 && multiset(s.master.busy)[w] == 0;
    assert w !in multiset(rest) && w !in multiset(s.master.busy);
  }

  /** A worker that has finished is idle again, no longer busy, and the master serves. */
  lemma FinishedServesAgain(n: nat, steps: seq<Step>, s: State, w: Worker)
    requires n > 0 && Reaches(n, steps, s) && Finished(w) in s.mail
    ensures Next(s, HandleFinished(w)).Some?
    ensures var t := Next(s, HandleFinished(w)).value;
            && t.mail == s.mail - multiset{Finished(w)} && IsServing(t.master)
            && t.master.idle == s.master.idle + [w] && multiset(t.master.busy) == multiset(s.master.busy) - multiset{w}
  {
    ReachableInv(n, steps, s);
    FinishedKeepsInv(n, s, w);
    FinishedMoves(s.master, w);
    MasterServesAgain(s.master, w);
  }

  lemma OneMoreStep(n: nat, steps: seq<Step>, r: State, a: Step, s: State)
    requires Reaches(n, steps, r) && StepsTo(r, a, s)
    ensures Reaches(n, steps + [a], s)
  {
    var more := steps + [a];
    assert more[..|more| - 1] == steps && more[|more| - 1] == a;
  }

  /** In every reachable state the pool can get to serve a request again, within two steps. */
  lemma CanAlwaysServe(n: nat, steps: seq<Step>, s: State) returns (more: seq<Step>, t: State)
    requires n > 0 && Reaches(n, steps, s)
    ensures |more| <= 2 && Reaches(n, steps + more, t) && IsServing(t.master) && t.master.idle != []
  {
    ReachableInv(n, steps, s);
    if s.master.idle != [] {
      more, t := [], s;
      assert steps + [] == steps;
    } else {
      var w := BusyWorker(n, s);
      if Finished(w) in s.mail {
        t := Finish(n, steps, s, w);
        more := [HandleFinished(w)];
      } else {
        more, t := PerformAndFinish(n, steps, s, w);
      }
    }
  }

  lemma PerformAndFinish(n: nat, steps: seq<Step>, s: State, w: Worker) returns (more: seq<Step>, t: State)
    requires n > 0 && Reaches(n, steps, s) && Job(w) in s.mail
    ensures |more| == 2 && Reaches(n, steps + more, t) && IsServing(t.master) && t.master.idle != []
  {
    var r := s.(mail := s.mail - multiset{Job(w)} + multiset{Finished(w)});
    OneMoreStep(n, steps, s, Perform(w), r);
    t := Finish(n, steps + [Perform(w)], r, w);
    more := [Perform(w), HandleFinished(w)];
    assert steps + more == steps + [Perform(w)] + [HandleFinished(w)];
  }

  lemma BusyWorker(n: nat, s: State) returns (w: Worker)
    requires n > 0 && Inv(n, s) && s.master.idle == []
    ensures w in s.master.busy && (Job(w) in s.mail || Finished(w) in s.mail)
  {
    w := 0;
    ListedOnce(n, s, w);
    assert w in multiset(s.master.busy);
    assert Outstanding(s, w);
  }

  lemma Finish(n: nat, steps: seq<Step>, s: State, w: Worker) returns (t: State)
    requires n > 0 && Reaches(n, steps, s) && Finished(w) in s.mail
    ensures Reaches(n, steps + [HandleFinished(w)], t) && IsServing(t.master) && t.master.idle != []
  {
    FinishedServesAgain(n, steps, s, w);
    t := Next(s, HandleFinished(w)).value;
    OneMoreStep(n, steps, s, HandleFinished(w), t);
  }
}
