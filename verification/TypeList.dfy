/**
 The splitter of template-argument lists: it finds the commas that are not inside angle brackets.
 Reading past the end of the text is an error, as in Python; `None` stands for it.
 */
module TypeList {
  import opened Wrappers

  // ----- The scanner

  function Weight(c: char): int {
    if c == '<' then 1 else if c == '>' then -1 else 0
  }

  /** The loop of `end_of_template` from `pos` with `open` templates open. */
  function Scan(x: string, pos: nat, open: int): Option<int>
    decreases |x| - pos
  {
    if open <= 0 then Some(pos - 1)
    else if pos >= |x| then None
    else Scan(x, pos + 1, open + Weight(x[pos]))
  }

  function EndOfTemplate(x: string, pos: nat): (r: Option<int>)
    ensures r.Some? ==> pos <= r.value < |x|
  {
    ScanEndsInside(x, pos, 1);
    Scan(x, pos, 1)
  }

  lemma {:induction false} ScanEndsInside(x: string, pos: nat, open: int)
    requires open > 0
    ensures var r := Scan(x, pos, open); r.Some? ==> pos <= r.value < |x|
    decreases |x| - pos
  {
    if pos < |x| && open + Weight(x[pos]) > 0 {
      ScanEndsInside(x, pos + 1, open + Weight(x[pos]));
    }
  }

  function NextElement(x: string, pos: nat, last: nat): (r: Option<nat>)
    ensures r.Some? ==> r.value >= pos
    decreases |x| - pos
  {
    if pos >= last then Some(pos)
    else if pos >= |x| then None
    else if x[pos] == ',' then Some(pos)
    else if x[pos] == '<' then
      match EndOfTemplate(x, pos + 1)
      case None => None
      case Some(end) => NextElement(x, end, last)
    else NextElement(x, pos + 1, last)
  }

  function Min(a: nat, b: nat): nat {
    if a < b then a else b
  }

  /** `x[i:n]`, which in Python stops at the end of the text. */
  function Slice(x: string, i: nat, n: nat): string
    requires i <= n
  {
    x[Min(i, |x|)..Min(n, |x|)]
  }

  /** The list of elements from position `i` on. */
  function Elements(x: string, i: nat, last: nat): Option<seq<string>>
    decreases if i <= last then last - i else 1
  {
    if i == last then Some([])
    else
      match NextElement(x, i, last)
      case None => None
      case Some(n) =>
        match Elements(x, Min(n + 2, last), last)
        case None => None
        case Some(rest) => Some([Slice(x, i, n)] + rest)
  }

  // ----- The loops

  method FindEnd(x: string, start: nat) returns (r: Option<int>)
    ensures r == EndOfTemplate(x, start)
  {
    var pos, open := start, 1;
    while open > 0
      invariant Scan(x, pos, open) == Scan(x, start, 1)
      decreases |x| - pos, open
    {
      if pos >= |x| {
        return None;
      }
      if x[pos] == '<' {
        open := open + 1;
      } else if x[pos] == '>' {
        open := open - 1;
      }
      pos := pos + 1;
    }
    r := Some(pos - 1);
  }

  method FindNext(x: string, start: nat, last: nat) returns (r: Option<nat>)
    ensures r == NextElement(x, start, last)
  {
    var pos := start;
    while pos < last
      invariant NextElement(x, pos, last) == NextElement(x, start, last)
      decreases |x| - pos
    {
      if pos >= |x| {
        return None;
      }
      if x[pos] == ',' {
        break;
      }
      if x[pos] == '<' {
        var end := FindEnd(x, pos + 1);
        if end.None? {
          return None;
        }
        pos := end.value;
      } else {
        pos := pos + 1;
      }
    }
    r := Some(pos);
  }

  method DecomposeTypeList(x: string, first: nat, last: nat) returns (r: Option<seq<string>>)
    ensures r == Elements(x, first, last)
  {
    var res: seq<string> := [];
    var i: nat := first;
    var n := FindNext(x, first, last);
    if n.None? {
      return None;
    }
    AppendedNothing(Elements(x, first, last));
    while i != last
      invariant n.Some? && n == NextElement(x, i, last)
      invariant Elements(x, first, last) == Appended(res, Elements(x, i, last))
      decreases if i <= last then last - i else 1
    {
      var next := Min(n.value + 2, last);
      AppendedOne(res, Slice(x, i, n.value), Elements(x, next, last));
      res := res + [Slice(x, i, n.value)];
      i := next;
      n := FindNext(x, i, last);
      if n.None? {
        return None;
      }
    }
    assert res + [] == res;
    r := Some(res);
  }

  function Appended(res: seq<string>, o: Option<seq<string>>): Option<seq<string>> {
    if o.None? then None else Some(res + o.value)
  }

  lemma AppendedNothing(o: Option<seq<string>>)
    ensures Appended([], o) == o
  {
    if o.Some? { assert [] + o.value == o.value; }
  }

  lemma AppendedOne(res: seq<string>, x: string, o: Option<seq<string>>)
    ensures Appended(res, Appended([x], o)) == Appended(res + [x], o)
  {
    if o.Some? { assert res + ([x] + o.value) == res + [x] + o.value; }
  }

  // ----- Rendered types

  datatype Type = Plain(name: string) | Template(name: string, args: seq<Type>)

  predicate IsName(s: string) {
    s != [] && forall i :: 0 <= i < |s| ==> s[i] !in {'<', '>', ','}
  }

  predicate WellNamed(t: Type)
    decreases t, 1
  {
    IsName(t.name) && (t.Template? ==> AllNamed(t.args))
  }

  predicate AllNamed(ts: seq<Type>)
    decreases ts, 0
  {
    ts == [] || (WellNamed(ts[0]) && AllNamed(ts[1..]))
  }

  function Render(t: Type): string
    decreases t, 1
  {
    match t
    case Plain(name) => name
    case Template(name, args) => name + "<" + RenderList(args) + ">"
  }

  function RenderList(ts: seq<Type>): string
    decreases ts, 0
  {
    if ts == [] then ""
    else if |ts| == 1 then Render(ts[0])
    else Render(ts[0]) + ", " + RenderList(ts[1..])
  }

  function RenderAll(ts: seq<Type>): seq<string> {
    if ts == [] then [] else [Render(ts[0])] + RenderAll(ts[1..])
  }

  // ----- Scanning rendered text

  predicate At(x: string, pos: nat, s: string) {
    pos + |s| <= |x| && x[pos..pos + |s|] == s
  }

  lemma AtSplit(x: string, pos: nat, a: string, b: string)
    requires At(x, pos, a + b)
    ensures At(x, pos, a) && At(x, pos + |a|, b)
  {
    var s := x[pos..pos + |a + b|];
    assert s[..|a|] == a && s[|a|..] == b;
    assert x[pos..pos + |a|] == s[..|a|] && x[pos + |a|..pos + |a| + |b|] == s[|a|..];
  }

  lemma AtChar(x: string, pos: nat, c: char)
    requires At(x, pos, [c])
    ensures pos < |x| && x[pos] == c
  {
    assert x[pos..pos + 1][0] == c;
  }

  /** Text without brackets leaves the number of open templates alone. */
  lemma {:induction false} ScanFlat(x: string, pos: nat, s: string, open: int)
    requires At(x, pos, s) && open > 0
    requires forall i :: 0 <= i < |s| ==> s[i] !in {'<', '>'}
    ensures Scan(x, pos, open) == Scan(x, pos + |s|, open)
    decreases |s|
  {
    if s != [] {
      assert s == [s[0]] + s[1..];
      AtSplit(x, pos, [s[0]], s[1..]);
      AtChar(x, pos, s[0]);
      ScanFlat(x, pos + 1, s[1..], open);
    }
  }

  /** And so does every rendered type: its brackets match. */
  lemma {:induction false} ScanType(x: string, pos: nat, t: Type, open: int)
    requires WellNamed(t) && At(x, pos, Render(t)) && open > 0
    ensures Scan(x, pos, open) == Scan(x, pos + |Render(t)|, open)
    decreases t, 1
  {
    match t
    case Plain(name) => ScanFlat(x, pos, name, open);
    case Template(name, args) =>
      var list := RenderList(args);
      var p := TemplateParts(x, pos, name, list);
      ScanFlat(x, pos, name, open);
      ScanList(x, p, args, open + 1);
  }

  lemma TemplateParts(x: string, pos: nat, name: string, list: string) returns (p: nat)
    requires At(x, pos, name + "<" + list + ">")
    ensures p == pos + |name| + 1 && At(x, pos, name) && At(x, p, list)
    ensures p + |list| < |x| && x[p - 1] == '<' && x[p + |list|] == '>'
  {
    p := pos + |name| + 1;
    AtSplit(x, pos, name + "<" + list, ">");
    AtSplit(x, pos, name + "<", list);
    AtSplit(x, pos, name, "<");
    AtChar(x, pos + |name|, '<');
    AtChar(x, p + |list|, '>');
  }

  lemma {:induction false} ScanList(x: string, pos: nat, ts: seq<Type>, open: int)
    requires AllNamed(ts) && At(x, pos, RenderList(ts)) && open > 0
    ensures Scan(x, pos, open) == Scan(x, pos + |RenderList(ts)|, open)
    decreases ts, 0
  {
    if |ts| == 1 {
      ScanType(x, pos, ts[0], open);
    } else if ts != [] {
      var first, rest := Render(ts[0]), RenderList(ts[1..]);
      AtSplit(x, pos, first + ", ", rest);
      AtSplit(x, pos, first, ", ");
      ScanType(x, pos, ts[0], open);
      ScanFlat(x, pos + |first|, ", ", open);
      ScanList(x, pos + |first| + 2, ts[1..], open);
    }
  }

  /** The next comma is not inside a rendered type. */
  lemma {:induction false} NextSkipsName(x: string, pos: nat, name: string, last: nat)
    requires At(x, pos, name) && pos + |name| <= last
    requires forall i :: 0 <= i < |name| ==> name[i] !in {'<', '>', ','}
    ensures NextElement(x, pos, last) == NextElement(x, pos + |name|, last)
    decreases |name|
  {
    if name != [] {
      assert name == [name[0]] + name[1..];
      AtSplit(x, pos, [name[0]], name[1..]);
      AtChar(x, pos, name[0]);
      NextSkipsName(x, pos + 1, name[1..], last);
    }
  }

  lemma NextSkipsType(x: string, pos: nat, t: Type, last: nat)
    requires WellNamed(t) && At(x, pos, Render(t)) && pos + |Render(t)| <= last
    ensures NextElement(x, pos, last) == NextElement(x, pos + |Render(t)|, last)
  {
    match t
    case Plain(name) => NextSkipsName(x, pos, name, last);
    case Template(name, args) =>
      var p := TemplateParts(x, pos, name, RenderList(args));
      NextSkipsName(x, pos, name, last);
      NextSkipsArguments(x, p, args, last);
  }

  lemma NextSkipsArguments(x: string, p: nat, args: seq<Type>, last: nat)
    requires AllNamed(args) && p > 0 && At(x, p, RenderList(args))
    requires p + |RenderList(args)| < last && p + |RenderList(args)| < |x|
    requires x[p - 1] == '<' && x[p + |RenderList(args)|] == '>'
    ensures NextElement(x, p - 1, last) == NextElement(x, p + |RenderList(args)| + 1, last)
  {
    MatchingBracket(x, p, args);
  }

  // ----- Main results

  /** `end_of_template` returns the bracket that closes the argument list it starts in. */
  lemma MatchingBracket(x: string, pos: nat, args: seq<Type>)
    requires AllNamed(args) && At(x, pos, RenderList(args))
    requires pos + |RenderList(args)| < |x| && x[pos + |RenderList(args)|] == '>'
    ensures EndOfTemplate(x, pos) == Some(pos + |RenderList(args)|)
  {
    ScanList(x, pos, args, 1);
  }

  /** Splitting a rendered list, wherever it stands in the text, returns exactly its elements. */
  lemma {:induction false} SplitInvertsRender(x: string, pos: nat, ts: seq<Type>)
    requires AllNamed(ts) && At(x, pos, RenderList(ts))
    ensures Elements(x, pos, pos + |RenderList(ts)|) == Some(RenderAll(ts))
    decreases ts, 1
  {
    if ts == [] {
    } else if |ts| == 1 {
      SplitSingleton(x, pos, ts);
    } else {
      SplitMany(x, pos, ts);
    }
  }

  lemma SplitMany(x: string, pos: nat, ts: seq<Type>)
    requires |ts| > 1 && AllNamed(ts) && At(x, pos, RenderList(ts))
    ensures Elements(x, pos, pos + |RenderList(ts)|) == Some(RenderAll(ts))
    decreases ts, 0
  {
    var rest, next, last := AtList(x, pos, ts);
    SplitInvertsRender(x, next, rest);
    SplitStep(x, pos, ts, last);
  }

  lemma SplitStep(x: string, pos: nat, ts: seq<Type>, last: nat)
    requires |ts| > 1 && WellNamed(ts[0]) && At(x, pos, Render(ts[0]) + ", ")
    requires pos + |Render(ts[0])| + 2 <= last
    requires Elements(x, pos + |Render(ts[0])| + 2, last) == Some(RenderAll(ts[1..]))
    ensures Elements(x, pos, last) == Some(RenderAll(ts))
  {
    InnerElement(x, pos, ts[0], last);
  }

  lemma SplitSingleton(x: string, pos: nat, ts: seq<Type>)
    requires |ts| == 1 && WellNamed(ts[0]) && At(x, pos, Render(ts[0]))
    ensures Elements(x, pos, pos + |Render(ts[0])|) == Some(RenderAll(ts))
  {
    LastElement(x, pos, ts[0]);
    assert ts[1..] == [] && [Render(ts[0])] + [] == [Render(ts[0])];
  }

  lemma AtList(x: string, pos: nat, ts: seq<Type>) returns (rest: seq<Type>, next: nat, last: nat)
    requires |ts| > 1 && AllNamed(ts) && At(x, pos, RenderList(ts))
    ensures WellNamed(ts[0]) && At(x, pos, Render(ts[0]) + ", ") && next == pos + |Render(ts[0])| + 2
    ensures rest == ts[1..] && AllNamed(rest) && At(x, next, RenderList(rest))
    ensures last == pos + |RenderList(ts)| == next + |RenderList(rest)|
  {
    rest := ts[1..];
    AtSplit(x, pos, Render(ts[0]) + ", ", RenderList(rest));
    next, last := pos + |Render(ts[0])| + 2, pos + |RenderList(ts)|;
  }

  lemma LastElement(x: string, pos: nat, t: Type)
    requires WellNamed(t) && At(x, pos, Render(t))
    ensures Elements(x, pos, pos + |Render(t)|) == Some([Render(t)])
  {
    RenderIsNotEmpty(t);
    NextSkipsType(x, pos, t, pos + |Render(t)|);
    assert [Render(t)] + [] == [Render(t)];
  }

  lemma InnerElement(x: string, pos: nat, t: Type, last: nat)
    requires WellNamed(t) && At(x, pos, Render(t) + ", ") && pos + |Render(t)| + 2 <= last
    ensures Elements(x, pos, last) == Appended([Render(t)], Elements(x, pos + |Render(t)| + 2, last))
  {
    var first := Render(t);
    AtSplit(x, pos, first, ", ");
    AtSplit(x, pos + |first|, ",", " ");
    AtChar(x, pos + |first|, ',');
    NextSkipsType(x, pos, t, last);
    ElementsStep(x, pos, first, last);
  }

  lemma ElementsStep(x: string, pos: nat, first: string, last: nat)
    requires At(x, pos, first) && pos + |first| + 2 <= last
    requires NextElement(x, pos, last) == Some(pos + |first|)
    ensures Elements(x, pos, last) == Appended([first], Elements(x, pos + |first| + 2, last))
  {
    assert Slice(x, pos, pos + |first|) == first;
  }

  lemma RenderIsNotEmpty(t: Type)
    requires WellNamed(t)
    ensures Render(t) != ""
  {
  }
}
