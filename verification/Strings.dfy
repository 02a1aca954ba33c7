/**
 Splitting, joining and replacing text. A set of delimiters is a string of them, as for
 `std::string::find_first_of`.
 */
module Strings {

  // ----- Splitting

  /** The first delimiter from `from` on, or the end of the text. */
  function NextDelim(s: string, delims: string, from: nat): (r: nat)
    requires from <= |s|
    ensures from <= r <= |s| && (r < |s| ==> s[r] in delims)
    ensures forall k :: from <= k < r ==> s[k] !in delims
    decreases |s| - from
  {
    if from == |s| || s[from] in delims then from else NextDelim(s, delims, from + 1)
  }

  function TokensFrom(s: string, delims: string, from: nat): seq<string>
    requires from <= |s|
    decreases |s| - from
  {
    var next := NextDelim(s, delims, from);
    var here := if next > from then [s[from..next]] else [];
    if next == |s| then here else here + TokensFrom(s, delims, next + 1)
  }

  function Tokens(s: string, delims: string): seq<string> {
    TokensFrom(s, delims, 0)
  }

  method Split(result: seq<string>, s: string, delims: string, keepAll: bool) returns (r: seq<string>)
    ensures r == result + Tokens(s, delims)
  {
    r := result;
    var prev: nat := 0;
    var pos := NextDelim(s, delims, prev);
    while pos < |s|
      invariant prev <= |s| && pos == NextDelim(s, delims, prev)
      invariant result + Tokens(s, delims) == r + TokensFrom(s, delims, prev)
      decreases |s| - prev
    {
      Regroup(r, if pos > prev then [s[prev..pos]] else [], TokensFrom(s, delims, pos + 1));
      if pos > prev {
        var substr := s[prev..pos];
        if substr != "" || keepAll {
          r := r + [substr];
        }
      }
      prev := pos + 1;
      pos := NextDelim(s, delims, prev);
    }
    assert s[prev..pos] == s[prev..] && r + [] == r;
    if prev < |s| {
      r := r + [s[prev..]];
    }
  }

  lemma Regroup(a: seq<string>, b: seq<string>, c: seq<string>)
    ensures a + (b + c) == a + b + c && a + [] == a
  {
  }

  // ----- Joining

  function Joined(ts: seq<string>, glue: string): string {
    if ts == [] then ""
    else if |ts| == 1 then ts[0]
    else ts[0] + glue + Joined(ts[1..], glue)
  }

  method Join(c: seq<string>, glue: string) returns (oss: string)
    ensures oss == Joined(c, glue)
  {
    var first := true;
    oss := "";
    var k := 0;
    assert c[0..] == c;
    while k < |c|
      invariant 0 <= k <= |c|
      invariant Joined(c, glue) == oss + Rest(first, c[k..], glue)
    {
      JoinedStep(oss, first, c, k, glue);
      if first {
        first := false;
      } else {
        oss := oss + glue;
      }
      oss := oss + c[k];
      k := k + 1;
    }
  }

  function Rest(first: bool, ts: seq<string>, glue: string): string {
    if ts == [] then "" else if first then Joined(ts, glue) else glue + Joined(ts, glue)
  }

  lemma JoinedStep(oss: string, first: bool, c: seq<string>, k: nat, glue: string)
    requires k < |c|
    ensures oss + Rest(first, c[k..], glue)
            == (if first then oss else oss + glue) + c[k] + Rest(false, c[k + 1..], glue)
  {
    var rest := Rest(false, c[k + 1..], glue);
    assert c[k..][1..] == c[k + 1..];
    Regroup3(c[k], glue, Joined(c[k + 1..], glue));
    assert Joined(c[k..], glue) == c[k] + rest;
    Regroup3(oss, c[k], rest);
    Regroup4(oss, glue, c[k], rest);
  }

  lemma Regroup4(a: string, b: string, c: string, d: string)
    ensures a + (b + (c + d)) == a + b + c + d
  {
  }

  lemma Regroup3(a: string, b: string, c: string)
    ensures a + (b + c) == a + b + c && a + "" == a
  {
  }

  // ----- Replacing

  predicate Occurs(s: string, k: nat, what: string) {
    k + |what| <= |s| && s[k..k + |what|] == what
  }

  /** `std::search`: the first occurrence from `from` on, or the end of the text. */
  function Search(s: string, from: nat, what: string): (r: nat)
    requires from <= |s|
    ensures from <= r <= |s| && (r < |s| ==> Occurs(s, r, what))
    ensures forall k :: from <= k < r ==> !Occurs(s, k, what)
    decreases |s| - from
  {
    if from == |s| || Occurs(s, from, what) then from else Search(s, from + 1, what)
  }

  /** What a replacement has to be: from left to right, without looking at inserted text again. */
  function Replaced(s: string, what: string, with: string): string
    requires what != "" || s == ""
    decreases |s|
  {
    if s == "" then ""
    else if Occurs(s, 0, what) then with + Replaced(s[|what|..], what, with)
    else [s[0]] + Replaced(s[1..], what, with)
  }

  method ReplaceAll(s: string, what: string, with: string) returns (str: string)
    requires what != "" || s == ""
    ensures str == Replaced(s, what, with)
  {
    str := s;
    ghost var from: nat := 0;
    var i := Search(str, 0, what);
    while i != |str|
      invariant from <= i <= |str| && i == Search(str, from, what)
      invariant what != "" || str == ""
      invariant Replaced(s, what, with) == str[..from] + Replaced(str[from..], what, with)
      decreases |str| - from
    {
      var before := i;
      SearchSkips(str, from, what, with);
      ghost var done, rest := str[..i] + with, str[i + |what|..];
      ReplaceHere(str, i, what, with);
      OneMoreDone(str, from, i, with, Replaced(rest, what, with));
      str := str[..i] + with + str[i + |what|..];
      assert str[..|done|] == done && str[|done|..] == rest;
      from := before + |with|;
      i := Search(str, before + |with|, what);
    }
    SearchSkips(str, from, what, with);
    assert str[from..] + "" == str[from..] && str[..from] + str[from..] == str;
  }

  /** Up to the next occurrence the text stays as it is. */
  lemma {:induction false} SearchSkips(s: string, from: nat, what: string, with: string)
    requires from <= |s| && (what != "" || s == "")
    ensures var i := Search(s, from, what);
            Replaced(s[from..], what, with) == s[from..i] + Replaced(s[i..], what, with)
    decreases |s| - from
  {
    var i := Search(s, from, what);
    if i == from {
      assert s[from..i] == "";
    } else {
      SearchSkips(s, from + 1, what, with);
      SkipOne(s, from, what, with);
      assert s[from..i] == [s[from]] + s[from + 1..i];
      Regroup3([s[from]], s[from + 1..i], Replaced(s[i..], what, with));
    }
  }

  lemma SkipOne(s: string, from: nat, what: string, with: string)
    requires from < |s| && what != "" && !Occurs(s, from, what)
    ensures Replaced(s[from..], what, with) == [s[from]] + Replaced(s[from + 1..], what, with)
  {
    var t := s[from..];
    assert t[1..] == s[from + 1..];
    assert |what| <= |t| ==> s[from..from + |what|] == t[0..|what|];
  }

  lemma ReplaceHere(s: string, i: nat, what: string, with: string)
    requires i < |s| && what != "" && Occurs(s, i, what)
    ensures Replaced(s[i..], what, with) == with + Replaced(s[i + |what|..], what, with)
  {
    var t := s[i..];
    assert t[0..|what|] == s[i..i + |what|];
    assert t[|what|..] == s[i + |what|..];
  }

  /** The part before `from` is finished; the text up to `i` and the new text join it. */
  lemma OneMoreDone(s: string, from: nat, i: nat, with: string, rest: string)
    requires from <= i <= |s|
    ensures s[..from] + (s[from..i] + (with + rest)) == s[..i] + with + rest
  {
    assert s[..i] == s[..from] + s[from..i];
  }

  // ----- What splitting promises

  datatype Run = Run(first: nat, last: nat)

  /** Characters `first` up to, not including, `last` are not delimiters, and the run cannot be extended. */
  predicate MaximalRun(s: string, delims: string, run: Run) {
    run.first < run.last <= |s|
    && (forall k :: run.first <= k < run.last ==> s[k] !in delims)
    && (run.first > 0 ==> s[run.first - 1] in delims)
    && (run.last < |s| ==> s[run.last] in delims)
  }

  function RunsFrom(s: string, delims: string, from: nat): seq<Run>
    requires from <= |s|
    decreases |s| - from
  {
    var next := NextDelim(s, delims, from);
    var here := if next > from then [Run(from, next)] else [];
    if next == |s| then here else here + RunsFrom(s, delims, next + 1)
  }

  /** The runs found are exactly the maximal runs, each once and in the order of the text. */
  lemma {:induction false} RunsAreMaximal(s: string, delims: string, from: nat)
    requires from <= |s| && (from > 0 ==> s[from - 1] in delims)
    ensures forall r :: r in RunsFrom(s, delims, from) <==> MaximalRun(s, delims, r) && from <= r.first
    ensures InOrder(RunsFrom(s, delims, from))
    decreases |s| - from
  {
    var next := NextDelim(s, delims, from);
    if next < |s| {
      RunsAreMaximal(s, delims, next + 1);
      RunsInOrder(s, delims, from, next, RunsFrom(s, delims, next + 1));
    }
    forall r ensures r in RunsFrom(s, delims, from) <==> MaximalRun(s, delims, r) && from <= r.first {
      RunIsListed(s, delims, from, r);
      RunIsFound(s, delims, from, r);
    }
  }

  lemma RunIsListed(s: string, delims: string, from: nat, r: Run)
    requires from <= |s|
    ensures var next := NextDelim(s, delims, from);
            r in RunsFrom(s, delims, from)
            <==> (from < next && r == Run(from, next)) || (next < |s| && r in RunsFrom(s, delims, next + 1))
  {
  }

  predicate InOrder(runs: seq<Run>) {
    forall a, b :: 0 <= a < b < |runs| ==> runs[a].last < runs[b].first
  }

  lemma RunsInOrder(s: string, delims: string, from: nat, next: nat, rest: seq<Run>)
    requires from <= |s| && next == NextDelim(s, delims, from) < |s| && rest == RunsFrom(s, delims, next + 1)
    requires InOrder(rest) && forall r :: r in rest ==> next < r.first
    ensures InOrder(RunsFrom(s, delims, from))
  {
    RunsStep(s, delims, from, next, rest);
    if from < next {
      InOrderStep(Run(from, next), rest);
    }
  }

  lemma RunsStep(s: string, delims: string, from: nat, next: nat, rest: seq<Run>)
    requires from <= |s| && next == NextDelim(s, delims, from) < |s| && rest == RunsFrom(s, delims, next + 1)
    ensures RunsFrom(s, delims, from) == if from < next then [Run(from, next)] + rest else rest
  {
    assert [] + rest == rest;
  }

  lemma InOrderStep(r: Run, rest: seq<Run>)
    requires InOrder(rest) && forall q :: q in rest ==> r.last < q.first
    ensures InOrder([r] + rest)
  {
  }

  /** A maximal run begins where the search does, or after the next delimiter. */
  lemma RunIsFound(s: string, delims: string, from: nat, r: Run)
    requires from <= |s| && (from > 0 ==> s[from - 1] in delims)
    ensures var next := NextDelim(s, delims, from);
            MaximalRun(s, delims, r) && from <= r.first
            <==> (from < next && r == Run(from, next))
                 || (next < |s| && MaximalRun(s, delims, r) && next + 1 <= r.first)
  {
    var next := NextDelim(s, delims, from);
    if MaximalRun(s, delims, r) && from <= r.first <= next {
      assert r.first <= from;
    }
  }

  /** Each token is the text of the run at its place. */
  predicate Texts(s: string, tokens: seq<string>, runs: seq<Run>) {
    && |tokens| == |runs|
    && forall k :: 0 <= k < |runs| ==>
                     runs[k].first < runs[k].last <= |s| && tokens[k] == s[runs[k].first..runs[k].last]
  }

  lemma {:induction false} TokensAt(s: string, delims: string, from: nat)
    requires from <= |s|
    ensures Texts(s, TokensFrom(s, delims, from), RunsFrom(s, delims, from))
    decreases |s| - from
  {
    var next := NextDelim(s, delims, from);
    if next < |s| {
      TokensAt(s, delims, next + 1);
      var tokens, runs := TokensFrom(s, delims, next + 1), RunsFrom(s, delims, next + 1);
      TextsPrepend(s, from, next, tokens, runs);
      assert [] + tokens == tokens && [] + runs == runs;
    }
  }

  lemma TextsPrepend(s: string, from: nat, next: nat, tokens: seq<string>, runs: seq<Run>)
    requires from <= next <= |s| && Texts(s, tokens, runs)
    ensures from < next ==> Texts(s, [s[from..next]] + tokens, [Run(from, next)] + runs)
  {
  }

  /** `split` returns the text of every maximal run of characters that are not delimiters, in order. */
  lemma TokensAreMaximalRuns(s: string, delims: string) returns (runs: seq<Run>)
    ensures forall r :: r in runs <==> MaximalRun(s, delims, r)
    ensures InOrder(runs) && |Tokens(s, delims)| == |runs|
    ensures forall k :: 0 <= k < |runs| ==> runs[k].first < runs[k].last <= |s|
                                            && Tokens(s, delims)[k] == s[runs[k].first..runs[k].last]
  {
    runs := RunsFrom(s, delims, 0);
    RunsAreMaximal(s, delims, 0);
    TokensAt(s, delims, 0);
  }

  // ----- Splitting what was joined

  predicate IsToken(t: string, delims: string) {
    t != "" && forall k :: 0 <= k < |t| ==> t[k] !in delims
  }

  predicate AllDelims(glue: string, delims: string) {
    forall k :: 0 <= k < |glue| ==> glue[k] in delims
  }

  lemma {:induction false} SkipDelims(s: string, delims: string, p: nat, q: nat)
    requires p <= q <= |s|
    requires forall k :: p <= k < q ==> s[k] in delims
    ensures TokensFrom(s, delims, p) == TokensFrom(s, delims, q)
    decreases q - p
  {
    if p < q {
      SkipDelims(s, delims, p + 1, q);
    }
  }

  lemma {:induction false} NextAfterToken(s: string, delims: string, p: nat, q: nat)
    requires p <= q <= |s| && (q < |s| ==> s[q] in delims)
    requires forall k :: p <= k < q ==> s[k] !in delims
    ensures NextDelim(s, delims, p) == q
    decreases q - p
  {
    if p < q { NextAfterToken(s, delims, p + 1, q); }
  }

  lemma {:induction false} SplitFrom(s: string, p: nat, ts: seq<string>, glue: string, delims: string)
    requires p <= |s| && s[p..] == Joined(ts, glue) && glue != ""
    requires AllDelims(glue, delims) && forall t :: t in ts ==> IsToken(t, delims)
    ensures TokensFrom(s, delims, p) == ts
    decreases |ts|
  {
    if ts == [] {
    } else if |ts| == 1 {
      LastToken(s, p, ts[0], delims);
    } else {
      var q := JoinedParts(s, p, ts, glue);
      SplitFrom(s, q, ts[1..], glue, delims);
      assert ts[0] in ts;
      AddToken(s, p, ts, glue, delims);
    }
  }

  lemma JoinedParts(s: string, p: nat, ts: seq<string>, glue: string) returns (q: nat)
    requires p <= |s| && |ts| > 1 && s[p..] == Joined(ts, glue)
    ensures q == p + |ts[0]| + |glue| <= |s| && s[p..p + |ts[0]|] == ts[0] && s[q..] == Joined(ts[1..], glue)
    ensures forall k :: p + |ts[0]| <= k < q ==> s[k] == glue[k - p - |ts[0]|]
  {
    ThreeParts(s, p, ts[0], glue, Joined(ts[1..], glue));
    q := p + |ts[0]| + |glue|;
  }

  lemma AddToken(s: string, p: nat, ts: seq<string>, glue: string, delims: string)
    requires ts != [] && IsToken(ts[0], delims) && AllDelims(glue, delims) && glue != ""
    requires p + |ts[0]| + |glue| <= |s| && s[p..p + |ts[0]|] == ts[0]
    requires forall k :: p + |ts[0]| <= k < p + |ts[0]| + |glue| ==> s[k] == glue[k - p - |ts[0]|]
    requires TokensFrom(s, delims, p + |ts[0]| + |glue|) == ts[1..]
    ensures TokensFrom(s, delims, p) == ts
  {
    TokenAndGlue(s, p, ts[0], p + |ts[0]| + |glue|, delims);
    assert ts == [ts[0]] + ts[1..];
  }

  lemma ThreeParts(s: string, p: nat, a: string, b: string, c: string)
    requires p <= |s| && s[p..] == a + b + c
    ensures |s| == p + |a| + |b| + |c| && s[p..p + |a|] == a && s[p + |a| + |b|..] == c
    ensures forall k :: p + |a| <= k < p + |a| + |b| ==> s[k] == b[k - p - |a|]
  {
    var u := s[p..];
    assert s[p..p + |a|] == u[..|a|] && s[p + |a| + |b|..] == u[|a| + |b|..];
    forall k | p + |a| <= k < p + |a| + |b| ensures s[k] == b[k - p - |a|] {
      assert s[k] == u[k - p];
    }
  }

  lemma TokenAndGlue(s: string, p: nat, t: string, next: nat, delims: string)
    requires IsToken(t, delims) && p + |t| < next <= |s| && s[p..p + |t|] == t
    requires forall k :: p + |t| <= k < next ==> s[k] in delims
    ensures TokensFrom(s, delims, p) == [t] + TokensFrom(s, delims, next)
  {
    FirstToken(s, p, t, delims);
    SkipDelims(s, delims, p + |t| + 1, next);
  }

  lemma FirstToken(s: string, p: nat, t: string, delims: string)
    requires IsToken(t, delims) && p + |t| < |s| && s[p..p + |t|] == t && s[p + |t|] in delims
    ensures TokensFrom(s, delims, p) == [t] + TokensFrom(s, delims, p + |t| + 1)
  {
    forall k | p <= k < p + |t| ensures s[k] !in delims {
      assert s[k] == t[k - p];
    }
    NextAfterToken(s, delims, p, p + |t|);
  }

  lemma LastToken(s: string, p: nat, t: string, delims: string)
    requires IsToken(t, delims) && p <= |s| && s[p..] == t
    ensures TokensFrom(s, delims, p) == [t]
  {
    forall k | p <= k < |s| ensures s[k] !in delims {
      assert s[k] == t[k - p];
    }
    NextAfterToken(s, delims, p, |s|);
    assert s[p..|s|] == t;
  }

  lemma {:induction false} JoinedIsToken(ts: seq<string>, delims: string)
    requires ts != [] && forall t :: t in ts ==> IsToken(t, delims)
    ensures IsToken(Joined(ts, ""), delims)
    decreases |ts|
  {
    assert IsToken(ts[0], delims);
    if |ts| > 1 {
      JoinedIsToken(ts[1..], delims);
    }
  }

  // Characters that are not delimiters are neither lost nor made by splitting.

  function Count(s: string, delims: string): nat {
    if s == "" then 0 else (if s[0] in delims then 0 else 1) + Count(s[1..], delims)
  }

  function Total(ts: seq<string>): nat {
    if ts == [] then 0 else |ts[0]| + Total(ts[1..])
  }

  lemma {:induction false} CountConcat(a: string, b: string, delims: string)
    ensures Count(a + b, delims) == Count(a, delims) + Count(b, delims)
    decreases |a|
  {
    if a == "" {
      assert a + b == b;
    } else {
      assert (a + b)[1..] == a[1..] + b;
      CountConcat(a[1..], b, delims);
    }
  }

  lemma {:induction false} CountOfRun(t: string, delims: string)
    requires forall k :: 0 <= k < |t| ==> t[k] !in delims
    ensures Count(t, delims) == |t|
    decreases |t|
  {
    if t != "" { CountOfRun(t[1..], delims); }
  }

  lemma {:induction false} CountIsPositive(s: string, delims: string)
    requires !AllDelims(s, delims)
    ensures Count(s, delims) > 0
    decreases |s|
  {
    if s[0] in delims { CountIsPositive(s[1..], delims); }
  }

  lemma TotalConcat(t: string, ts: seq<string>)
    ensures Total([t] + ts) == |t| + Total(ts) && Total([t]) == |t|
  {
    assert ([t] + ts)[1..] == ts;
  }

  /** The tokens of a text are as long, together, as the text without its delimiters. */
  lemma {:induction false} TokensKeepCount(s: string, delims: string, from: nat)
    requires from <= |s|
    ensures Total(TokensFrom(s, delims, from)) == Count(s[from..], delims)
    decreases |s| - from
  {
    var next := NextDelim(s, delims, from);
    if next < |s| {
      TokensKeepCount(s, delims, next + 1);
    }
    CountToNext(s, delims, from, next);
    TotalToNext(s, delims, from);
  }

  lemma TotalToNext(s: string, delims: string, from: nat)
    requires from <= |s|
    ensures var next := NextDelim(s, delims, from);
            Total(TokensFrom(s, delims, from))
            == next - from + (if next == |s| then 0 else Total(TokensFrom(s, delims, next + 1)))
  {
    var next := NextDelim(s, delims, from);
    var run := s[from..next];
    TotalConcat(run, []);
    if next < |s| {
      var rest := TokensFrom(s, delims, next + 1);
      TotalConcat(run, rest);
      assert [] + rest == rest;
    }
  }

  lemma CountToNext(s: string, delims: string, from: nat, next: nat)
    requires from <= next <= |s| && (next < |s| ==> s[next] in delims)
    requires forall k :: from <= k < next ==> s[k] !in delims
    ensures Count(s[from..], delims) == next - from + (if next == |s| then 0 else Count(s[next + 1..], delims))
  {
    var run, rest := s[from..next], s[next..];
    CountOfRun(run, delims);
    CountConcat(run, rest, delims);
    assert s[from..] == run + rest;
    if next < |s| {
      assert rest[0] == s[next] && rest[1..] == s[next + 1..];
    }
  }

  lemma {:induction false} JoinedCount(ts: seq<string>, glue: string, delims: string)
    requires forall t :: t in ts ==> IsToken(t, delims)
    ensures Count(Joined(ts, glue), delims) >= Total(ts) + (if |ts| > 1 then Count(glue, delims) else 0)
    decreases |ts|
  {
    if ts != [] {
      assert IsToken(ts[0], delims);
      CountOfRun(ts[0], delims);
      if |ts| > 1 {
        var rest := Joined(ts[1..], glue);
        JoinedCount(ts[1..], glue, delims);
        CountConcat(ts[0] + glue, rest, delims);
        CountConcat(ts[0], glue, delims);
      }
    }
  }

  /**
   Splitting undoes joining, with whatever glue, exactly when there is nothing to glue or the glue is
   made of delimiters, of which there is at least one.
   */
  lemma SplitOfJoinIff(ts: seq<string>, glue: string, delims: string)
    requires forall t :: t in ts ==> IsToken(t, delims)
    ensures Tokens(Joined(ts, glue), delims) == ts <==> |ts| <= 1 || (glue != "" && AllDelims(glue, delims))
  {
    var s := Joined(ts, glue);
    assert s[0..] == s;
    if ts == [] {
    } else if |ts| == 1 {
      assert ts[0] in ts;
      LastToken(s, 0, ts[0], delims);
    } else if !AllDelims(glue, delims) {
      CountIsPositive(glue, delims);
      JoinedCount(ts, glue, delims);
      TokensKeepCount(s, delims, 0);
    } else if glue != "" {
      SplitFrom(s, 0, ts, glue, delims);
    } else {
      JoinedIsToken(ts, delims);
      LastToken(s, 0, s, delims);
      assert |[s]| != |ts|;
    }
  }

  /** Whatever the text, its tokens can be joined with delimiters and split again. */
  lemma SplitIsStable(s: string, glue: string, delims: string)
    requires AllDelims(glue, delims) && glue != ""
    ensures Tokens(Joined(Tokens(s, delims), glue), delims) == Tokens(s, delims)
  {
    var runs := TokensAreMaximalRuns(s, delims);
    var ts := Tokens(s, delims);
    forall k | 0 <= k < |ts| ensures IsToken(ts[k], delims) {
      var r := runs[k];
      assert r in runs;
      assert forall j :: 0 <= j < |ts[k]| ==> ts[k][j] == s[r.first + j];
    }
    SplitOfJoinIff(ts, glue, delims);
  }

  // ----- What replacing promises

  predicate Nowhere(s: string, what: string) {
    forall k :: 0 <= k < |s| ==> !Occurs(s, k, what)
  }

  /** In the piece followed by the pattern there is no earlier occurrence. */
  predicate FirstAtEnd(piece: string, what: string) {
    forall k :: 0 <= k < |piece| ==> !Occurs(piece + what, k, what)
  }

  /** The text cut at its leftmost occurrences that do not overlap. */
  predicate Leftmost(ps: seq<string>, what: string) {
    ps != []
    && if |ps| == 1 then Nowhere(ps[0], what) else FirstAtEnd(ps[0], what) && Leftmost(ps[1..], what)
  }

  function Pieces(s: string, what: string): (ps: seq<string>)
    requires what != ""
    ensures ps != []
    decreases |s|
  {
    var i := Search(s, 0, what);
    if i == |s| then [s] else [s[..i]] + Pieces(s[i + |what|..], what)
  }

  lemma {:induction false} PiecesOfText(s: string, what: string)
    requires what != ""
    ensures Leftmost(Pieces(s, what), what) && Joined(Pieces(s, what), what) == s
    decreases |s|
  {
    var i := Search(s, 0, what);
    if i < |s| {
      var rest := s[i + |what|..];
      PiecesOfText(rest, what);
      FirstPiece(s, i, what);
      AddPiece(s[..i], Pieces(rest, what), what);
    } else {
      LastPiece(s, what);
    }
  }

  lemma LastPiece(s: string, what: string)
    requires what != "" && Search(s, 0, what) == |s|
    ensures Leftmost([s], what) && Joined([s], what) == s
  {
  }

  lemma AddPiece(p: string, ps: seq<string>, what: string)
    requires FirstAtEnd(p, what) && Leftmost(ps, what)
    ensures Leftmost([p] + ps, what) && Joined([p] + ps, what) == p + what + Joined(ps, what)
  {
    assert ([p] + ps)[1..] == ps;
  }

  lemma FirstPiece(s: string, i: nat, what: string)
    requires Occurs(s, i, what) && forall k :: 0 <= k < i ==> !Occurs(s, k, what)
    ensures FirstAtEnd(s[..i], what) && s[..i] + what + s[i + |what|..] == s
  {
    var t := s[..i] + what;
    assert t == s[..i + |what|];
    forall k | 0 <= k < i ensures !Occurs(t, k, what) {
      assert !Occurs(s, k, what);
      assert t[k..k + |what|] == s[k..k + |what|];
    }
  }

  lemma SearchFindsEnd(p: string, what: string, rest: string)
    requires what != "" && FirstAtEnd(p, what)
    ensures Search(p + what + rest, 0, what) == |p|
  {
    var s := p + what + rest;
    assert s[|p|..|p| + |what|] == what;
    assert Occurs(s, |p|, what);
    forall k | 0 <= k < |p| ensures !Occurs(s, k, what) {
      OccursInPrefix(p + what, rest, k, what);
    }
  }

  lemma OccursInPrefix(a: string, rest: string, k: nat, what: string)
    requires k + |what| <= |a|
    ensures Occurs(a + rest, k, what) <==> Occurs(a, k, what)
  {
    assert (a + rest)[k..k + |what|] == a[k..k + |what|];
  }

  lemma {:induction false} ReplacedPieces(ps: seq<string>, what: string, with: string)
    requires what != "" && Leftmost(ps, what)
    ensures Replaced(Joined(ps, what), what, with) == Joined(ps, with)
    decreases |ps|
  {
    var s := Joined(ps, what);
    assert s[0..] == s;
    if |ps| == 1 {
      assert Search(s, 0, what) == |s|;
      SearchSkips(s, 0, what, with);
      assert s + "" == s;
    } else {
      ReplacedPieces(ps[1..], what, with);
      ReplacedPiece(ps[0], Joined(ps[1..], what), what, with);
    }
  }

  lemma ReplacedPiece(p: string, rest: string, what: string, with: string)
    requires what != "" && FirstAtEnd(p, what)
    ensures Replaced(p + what + rest, what, with) == p + with + Replaced(rest, what, with)
  {
    var s := p + what + rest;
    SearchFindsEnd(p, what, rest);
    SearchSkips(s, 0, what, with);
    assert s[0..] == s && s[0..|p|] == p && s[|p| + |what|..] == rest;
    ReplaceHere(s, |p|, what, with);
    Regroup3(p, with, Replaced(rest, what, with));
  }

  /** `replace_all` puts the new text in place of the leftmost occurrences that do not overlap. */
  lemma ReplacedIff(s: string, what: string, with: string, r: string)
    requires what != ""
    ensures r == Replaced(s, what, with)
            <==> exists ps :: Leftmost(ps, what) && Joined(ps, what) == s && Joined(ps, with) == r
  {
    PiecesOfText(s, what);
    ReplacedPieces(Pieces(s, what), what, with);
    forall ps | Leftmost(ps, what) && Joined(ps, what) == s
      ensures Joined(ps, with) == Replaced(s, what, with)
    {
      ReplacedPieces(ps, what, with);
    }
  }

  // ----- When the replacement loop ends

  /** The text and the position after `n` rounds of the loop. */
  function Round(s: string, what: string, with: string, n: nat): (r: (string, nat))
    ensures r.1 <= |r.0|
  {
    if n == 0 then (s, Search(s, 0, what))
    else
      var (t, i) := Round(s, what, with, n - 1);
      if i == |t| then (t, i)
      else
        var u := t[..i] + with + t[i + |what|..];
        (u, Search(u, i + |with|, what))
  }

  predicate EndedAfter(s: string, what: string, with: string, n: nat) {
    var (t, i) := Round(s, what, with, n);
    i == |t|
  }

  lemma {:induction false} RoundsShrink(s: string, what: string, with: string, n: nat)
    requires what != ""
    ensures EndedAfter(s, what, with, n)
            || |Round(s, what, with, n).0| - Round(s, what, with, n).1 <= |s| - n
    decreases n
  {
    if n > 0 { RoundsShrink(s, what, with, n - 1); }
  }

  lemma {:induction false} EmptyPatternNeverEnds(s: string, with: string, n: nat)
    requires s != ""
    ensures !EndedAfter(s, "", with, n)
    decreases n
  {
    if n > 0 { EmptyPatternNeverEnds(s, with, n - 1); }
  }

  /** The loop ends on every text, except with an empty pattern on a text that is not empty. */
  lemma ReplaceAllEndsIff(s: string, what: string, with: string)
    ensures (exists n :: EndedAfter(s, what, with, n)) <==> what != "" || s == ""
  {
    if what != "" {
      RoundsShrink(s, what, with, |s|);
      assert EndedAfter(s, what, with, |s|);
    } else if s == "" {
      assert EndedAfter(s, what, with, 0);
    } else {
      forall n ensures !EndedAfter(s, what, with, n) {
        EmptyPatternNeverEnds(s, with, n);
      }
    }
  }
}
