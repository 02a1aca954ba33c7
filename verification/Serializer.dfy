/**
 The binary serializer and deserializer: fixed-width integers in network byte order, strings and
 sequences after their length, and composite values part by part.
 */
module Serializer {
  import opened Wrappers
  import opened Bits
  import V = Varbyte

  type Byte = V.Byte

  /**
   The types the model serializes; an array has a fixed length, a sequence sends its own. A pair is a
   tuple of two fields.
   */
  datatype Schema =
    | Int(size: nat, signed: bool)
    | Bool
    | Str
    | Sequence(elem: Schema)
    | Array(elem: Schema, length: nat)
    | Tuple(fields: seq<Schema>)
    | ObjectHeader

  datatype Value =
    | IntV(n: int)
    | BoolV(b: bool)
    | StrV(bs: seq<Byte>)
    | ListV(vs: seq<Value>)
    | HeaderV(typenr: nat, name: seq<Byte>)

  datatype Outcome = Got(v: Value, rest: seq<Byte>) | Failed(why: V.Failure)

  datatype Many = GotAll(vs: seq<Value>, rest: seq<Byte>) | FailedAll(why: V.Failure)

  // ----- Fixed-width integers

  function Pow256(n: nat): (r: nat)
    ensures r > 0
  {
    if n == 0 then 1 else 256 * Pow256(n - 1)
  }

  /** Network byte order: the most significant byte first. */
  function BigEndian(w: nat, size: nat): (bs: seq<Byte>)
    ensures |bs| == size
  {
    if size == 0 then [] else BigEndian(w / 256, size - 1) + [w % 256]
  }

  function FromBigEndian(bs: seq<Byte>): nat {
    if bs == [] then 0 else 256 * FromBigEndian(bs[..|bs| - 1]) + bs[|bs| - 1]
  }

  lemma {:induction false} BigEndianRoundTrip(w: nat, size: nat)
    requires w < Pow256(size)
    ensures FromBigEndian(BigEndian(w, size)) == w
  {
    if size > 0 {
      BigEndianRoundTrip(w / 256, size - 1);
      assert BigEndian(w, size)[..size - 1] == BigEndian(w / 256, size - 1);
    }
  }

  lemma {:induction false} FromBigEndianBound(bs: seq<Byte>)
    ensures FromBigEndian(bs) < Pow256(|bs|)
  {
    if bs != [] {
      FromBigEndianBound(bs[..|bs| - 1]);
    }
  }

  /** Byte `i` has the weight of its place. */
  lemma {:induction false} BigEndianAt(w: nat, size: nat, i: nat)
    requires i < size
    ensures BigEndian(w, size)[i] == w / Pow256(size - 1 - i) % 256
  {
    if i < size - 1 {
      BigEndianAt(w / 256, size - 1, i);
      DivDiv(w, Pow256(size - 2 - i));
    }
  }

  lemma DivDiv(w: nat, p: nat)
    requires p > 0
    ensures w / 256 / p == w / (256 * p)
  {
    var q, r := w / 256 / p, w / 256 % p;
    assert w / 256 == p * q + r;
    assert 256 * (p * q) == (256 * p) * q;
    assert w == (256 * p) * q + (256 * r + w % 256);
    DivMod(w, 256 * p, q, 256 * r + w % 256);
  }

  /** Two's complement. */
  function ToWord(n: int, size: nat): nat
    requires n + Pow256(size) >= 0
  {
    if n < 0 then n + Pow256(size) else n
  }

  function FromWord(w: nat, size: nat, signed: bool): int {
    if signed && 2 * w >= Pow256(size) then w - Pow256(size) else w
  }

  predicate InRange(n: int, size: nat, signed: bool) {
    if signed then 2 * n + Pow256(size) >= 0 && 2 * n < Pow256(size) else 0 <= n < Pow256(size)
  }

  // ----- Values of a type

  predicate WellTyped(s: Schema, v: Value)
    decreases s, 1
  {
    match (s, v)
    case (Int(size, signed), IntV(n)) => size in {1, 2, 4, 8} && InRange(n, size, signed)
    case (Bool, BoolV(_)) => true
    case (Str, StrV(bs)) => |bs| < V.WORD64
    case (Sequence(elem), ListV(vs)) => |vs| < V.WORD64 && AllTyped(elem, vs)
    case (Array(elem, length), ListV(vs)) => |vs| == length && AllTyped(elem, vs)
    case (Tuple(fields), ListV(vs)) => FieldsTyped(fields, vs)
    case (ObjectHeader, HeaderV(typenr, name)) => typenr < 65536 && |name| < V.WORD64 && (typenr != 0 ==> name == [])
    case _ => false
  }

  predicate AllTyped(elem: Schema, vs: seq<Value>)
    decreases elem, 2, |vs|
  {
    vs == [] || (WellTyped(elem, vs[0]) && AllTyped(elem, vs[1..]))
  }

  predicate FieldsTyped(fields: seq<Schema>, vs: seq<Value>)
    decreases fields, 0
  {
    if fields == [] || vs == [] then fields == [] && vs == []
    else WellTyped(fields[0], vs[0]) && FieldsTyped(fields[1..], vs[1..])
  }

  /** Every length that is sent fits into an `int`. */
  predicate LengthsFit(s: Schema, v: Value)
    requires WellTyped(s, v)
    decreases s, 1
  {
    match s
    case Str => |v.bs| < V.INT_LIMIT
    case Sequence(elem) => |v.vs| < V.INT_LIMIT && AllFit(elem, v.vs)
    case Array(elem, _) => AllFit(elem, v.vs)
    case Tuple(fields) => FieldsFit(fields, v.vs)
    case ObjectHeader => |v.name| < V.INT_LIMIT
    case _ => true
  }

  predicate AllFit(elem: Schema, vs: seq<Value>)
    requires AllTyped(elem, vs)
    decreases elem, 2, |vs|
  {
    vs == [] || (LengthsFit(elem, vs[0]) && AllFit(elem, vs[1..]))
  }

  predicate FieldsFit(fields: seq<Schema>, vs: seq<Value>)
    requires FieldsTyped(fields, vs)
    decreases fields, 0
  {
    fields == [] || (LengthsFit(fields[0], vs[0]) && FieldsFit(fields[1..], vs[1..]))
  }

  // ----- Encoding

  function EncodeStr(bs: seq<Byte>): seq<Byte> {
    V.Encode(|bs|) + bs
  }

  function Encode(s: Schema, v: Value): seq<Byte>
    requires WellTyped(s, v)
    decreases s, 1
  {
    match s
    case Int(size, signed) => BigEndian(ToWord(v.n, size), size)
    case Bool => [if v.b then 1 else 0]
    case Str => EncodeStr(v.bs)
    case Sequence(elem) => V.Encode(|v.vs|) + EncodeAll(elem, v.vs)
    case Array(elem, _) => EncodeAll(elem, v.vs)
    case Tuple(fields) => EncodeFields(fields, v.vs)
    case ObjectHeader => BigEndian(v.typenr, 2) + (if v.typenr == 0 then EncodeStr(v.name) else [])
  }

  function EncodeAll(elem: Schema, vs: seq<Value>): seq<Byte>
    requires AllTyped(elem, vs)
    decreases elem, 2, |vs|
  {
    if vs == [] then [] else Encode(elem, vs[0]) + EncodeAll(elem, vs[1..])
  }

  function EncodeFields(fields: seq<Schema>, vs: seq<Value>): seq<Byte>
    requires FieldsTyped(fields, vs)
    decreases fields, 0
  {
    if fields == [] then [] else Encode(fields[0], vs[0]) + EncodeFields(fields[1..], vs[1..])
  }

  // ----- Decoding

  function DecodeInt(size: nat, signed: bool, bs: seq<Byte>): Outcome {
    if |bs| < size then Failed(V.Eof)
    else Got(IntV(FromWord(FromBigEndian(bs[..size]), size, signed)), bs[size..])
  }

  function DecodeStr(bs: seq<Byte>): Outcome {
    match V.Decode(bs)
    case Failed(why) => Failed(why)
    case Value(n, rest) => if n > |rest| then Failed(V.Eof) else Got(StrV(rest[..n]), rest[n..])
  }

  function AsList(m: Many): Outcome {
    match m
    case GotAll(vs, rest) => Got(ListV(vs), rest)
    case FailedAll(why) => Failed(why)
  }

  function Decode(s: Schema, bs: seq<Byte>): Outcome
    decreases s, 1
  {
    match s
    case Int(size, signed) => DecodeInt(size, signed, bs)
    case Bool => if bs == [] then Failed(V.Eof) else Got(BoolV(bs[0] != 0), bs[1..])
    case Str => DecodeStr(bs)
    case Sequence(elem) =>
      (match V.Decode(bs)
       case Failed(why) => Failed(why)
       case Value(n, rest) => AsList(DecodeMany(elem, n, rest)))
    case Array(elem, length) => AsList(DecodeMany(elem, length, bs))
    case Tuple(fields) => AsList(DecodeFields(fields, bs))
    case ObjectHeader =>
      match DecodeInt(2, false, bs)
      case Failed(why) => Failed(why)
      case Got(v, rest) => if v.n == 0 then Named(DecodeStr(rest)) else Got(HeaderV(v.n, []), rest)
  }

  function Named(o: Outcome): Outcome {
    if o.Got? && o.v.StrV? then Got(HeaderV(0, o.v.bs), o.rest) else o
  }

  function Prepend(v: Value, m: Many): Many {
    if m.GotAll? then m.(vs := [v] + m.vs) else m
  }

  function DecodeMany(elem: Schema, n: nat, bs: seq<Byte>): Many
    decreases elem, 2, n
  {
    if n == 0 then GotAll([], bs)
    else
      match Decode(elem, bs)
      case Failed(why) => FailedAll(why)
      case Got(v, rest) => Prepend(v, DecodeMany(elem, n - 1, rest))
  }

  function DecodeFields(fields: seq<Schema>, bs: seq<Byte>): Many
    decreases fields, 0
  {
    if fields == [] then GotAll([], bs)
    else
      match Decode(fields[0], bs)
      case Failed(why) => FailedAll(why)
      case Got(v, rest) => Prepend(v, DecodeFields(fields[1..], rest))
  }

  // ----- What is decoded depends only on the bytes consumed

  /** `after` decodes like `before` with `more` bytes behind it. */
  predicate Extends(before: Outcome, after: Outcome, more: seq<Byte>) {
    if before.Got? then after == Got(before.v, before.rest + more)
    else before.why == V.Undefined ==> after == before
  }

  predicate ExtendsAll(before: Many, after: Many, more: seq<Byte>) {
    if before.GotAll? then after == GotAll(before.vs, before.rest + more)
    else before.why == V.Undefined ==> after == before
  }

  lemma IntIsLocal(size: nat, signed: bool, bs: seq<Byte>, more: seq<Byte>)
    ensures Extends(DecodeInt(size, signed, bs), DecodeInt(size, signed, bs + more), more)
  {
    if |bs| >= size {
      assert (bs + more)[..size] == bs[..size] && (bs + more)[size..] == bs[size..] + more;
    }
  }

  lemma StrIsLocal(bs: seq<Byte>, more: seq<Byte>)
    ensures Extends(DecodeStr(bs), DecodeStr(bs + more), more)
  {
    V.DecodeIsLocal(bs, 0, 0, more);
    var d := V.Decode(bs);
    if d.Value? && d.x <= |d.rest| {
      assert (d.rest + more)[..d.x] == d.rest[..d.x] && (d.rest + more)[d.x..] == d.rest[d.x..] + more;
    }
  }

  lemma {:induction false} DecodeIsLocal(s: Schema, bs: seq<Byte>, more: seq<Byte>)
    ensures Extends(Decode(s, bs), Decode(s, bs + more), more)
    decreases s, 1
  {
    match s
    case Int(size, signed) => IntIsLocal(size, signed, bs, more);
    case Bool => if bs != [] { assert (bs + more)[1..] == bs[1..] + more; }
    case Str => StrIsLocal(bs, more);
    case Sequence(elem) =>
      V.DecodeIsLocal(bs, 0, 0, more);
      var d := V.Decode(bs);
      if d.Value? { ManyIsLocal(elem, d.x, d.rest, more); }
    case Array(elem, length) => ManyIsLocal(elem, length, bs, more);
    case Tuple(fields) => FieldsAreLocal(fields, bs, more);
    case ObjectHeader =>
      IntIsLocal(2, false, bs, more);
      var d := DecodeInt(2, false, bs);
      if d.Got? && d.v.n == 0 { StrIsLocal(d.rest, more); }
  }

  lemma {:induction false} ManyIsLocal(elem: Schema, n: nat, bs: seq<Byte>, more: seq<Byte>)
    ensures ExtendsAll(DecodeMany(elem, n, bs), DecodeMany(elem, n, bs + more), more)
    decreases elem, 2, n
  {
    if n > 0 {
      DecodeIsLocal(elem, bs, more);
      var d := Decode(elem, bs);
      if d.Got? { ManyIsLocal(elem, n - 1, d.rest, more); }
    }
  }

  lemma {:induction false} FieldsAreLocal(fields: seq<Schema>, bs: seq<Byte>, more: seq<Byte>)
    ensures ExtendsAll(DecodeFields(fields, bs), DecodeFields(fields, bs + more), more)
    decreases fields, 0
  {
    if fields != [] {
      DecodeIsLocal(fields[0], bs, more);
      var d := Decode(fields[0], bs);
      if d.Got? { FieldsAreLocal(fields[1..], d.rest, more); }
    }
  }

  // ----- The bytes consumed, alone

  lemma IntConsumes(size: nat, signed: bool, bs: seq<Byte>) returns (c: seq<Byte>)
    ensures var d := DecodeInt(size, signed, bs);
            d.Got? ==> bs == c + d.rest && DecodeInt(size, signed, c) == Got(d.v, [])
  {
    c := if |bs| >= size then bs[..size] else [];
    assert c[..|c|] == c;
  }

  lemma StrConsumes(bs: seq<Byte>) returns (c: seq<Byte>)
    ensures var d := DecodeStr(bs);
            d.Got? ==> bs == c + d.rest && DecodeStr(c) == Got(d.v, [])
  {
    c := V.Consumes(bs, 0, 0);
    var d := V.Decode(bs);
    if d.Value? && d.x <= |d.rest| {
      var text := d.rest[..d.x];
      V.DecodeIsLocal(c, 0, 0, text);
      assert [] + text == text && text[..d.x] == text && text[d.x..] == [];
      c := c + text;
      assert bs == c + d.rest[d.x..];
    }
  }

  lemma {:induction false} Consumes(s: Schema, bs: seq<Byte>) returns (c: seq<Byte>)
    ensures var d := Decode(s, bs);
            d.Got? ==> bs == c + d.rest && Decode(s, c) == Got(d.v, [])
    decreases s, 1
  {
    match s
    case Int(size, signed) => c := IntConsumes(size, signed, bs);
    case Bool => c := if bs == [] then [] else [bs[0]];
    case Str => c := StrConsumes(bs);
    case Sequence(elem) => c := SequenceConsumes(elem, bs);
    case Array(elem, length) => c := ManyConsumes(elem, length, bs);
    case Tuple(fields) => c := FieldsConsume(fields, bs);
    case ObjectHeader => c := HeaderConsumes(bs);
  }

  lemma HeaderConsumes(bs: seq<Byte>) returns (c: seq<Byte>)
    ensures var d := Decode(ObjectHeader, bs);
            d.Got? ==> bs == c + d.rest && Decode(ObjectHeader, c) == Got(d.v, [])
  {
    c := IntConsumes(2, false, bs);
    var d := DecodeInt(2, false, bs);
    if d.Got? && d.v.n == 0 {
      var name := StrConsumes(d.rest);
      IntIsLocal(2, false, c, name);
      assert [] + name == name;
      c := c + name;
    }
  }

  lemma {:induction false} SequenceConsumes(elem: Schema, bs: seq<Byte>) returns (c: seq<Byte>)
    ensures var d := Decode(Sequence(elem), bs);
            d.Got? ==> bs == c + d.rest && Decode(Sequence(elem), c) == Got(d.v, [])
    decreases elem, 3
  {
    c := V.Consumes(bs, 0, 0);
    var d := V.Decode(bs);
    if d.Value? {
      var body := ManyConsumes(elem, d.x, d.rest);
      V.DecodeIsLocal(c, 0, 0, body);
      assert [] + body == body;
      c := c + body;
    }
  }

  lemma {:induction false} ManyConsumes(elem: Schema, n: nat, bs: seq<Byte>) returns (c: seq<Byte>)
    ensures var d := DecodeMany(elem, n, bs);
            d.GotAll? ==> bs == c + d.rest && DecodeMany(elem, n, c) == GotAll(d.vs, [])
    decreases elem, 2, n
  {
    c := [];
    if n > 0 {
      c := Consumes(elem, bs);
      var d := Decode(elem, bs);
      if d.Got? {
        var others := ManyConsumes(elem, n - 1, d.rest);
        DecodeIsLocal(elem, c, others);
        assert [] + others == others;
        c := c + others;
      }
    }
  }

  lemma {:induction false} FieldsConsume(fields: seq<Schema>, bs: seq<Byte>) returns (c: seq<Byte>)
    ensures var d := DecodeFields(fields, bs);
            d.GotAll? ==> bs == c + d.rest && DecodeFields(fields, c) == GotAll(d.vs, [])
    decreases fields, 0
  {
    c := [];
    if fields != [] {
      c := Consumes(fields[0], bs);
      var d := Decode(fields[0], bs);
      if d.Got? {
        var others := FieldsConsume(fields[1..], d.rest);
        DecodeIsLocal(fields[0], c, others);
        assert [] + others == others;
        c := c + others;
      }
    }
  }

  // ----- Round trip

  lemma Regroup(a: seq<Byte>, b: seq<Byte>, c: seq<Byte>)
    ensures a + (b + c) == a + b + c
  {
  }

  lemma IntRoundTrip(n: int, size: nat, signed: bool, more: seq<Byte>)
    requires size > 0 && InRange(n, size, signed)
    ensures n + Pow256(size) >= 0
    ensures DecodeInt(size, signed, BigEndian(ToWord(n, size), size) + more) == Got(IntV(n), more)
  {
    var bs := BigEndian(ToWord(n, size), size);
    assert (bs + more)[..size] == bs && (bs + more)[size..] == more;
    BigEndianRoundTrip(ToWord(n, size), size);
  }

  /** A string survives exactly when its length fits; otherwise no string of its length comes back. */
  lemma StrRoundTrip(bs: seq<Byte>, more: seq<Byte>)
    requires |bs| < V.WORD64
    ensures |bs| < V.INT_LIMIT ==> DecodeStr(EncodeStr(bs) + more) == Got(StrV(bs), more)
    ensures |bs| >= V.INT_LIMIT ==>
              var d := DecodeStr(EncodeStr(bs) + more);
              d.Got? ==> d.v.StrV? && |d.v.bs| != |bs|
  {
    V.DecodeOfEncode(|bs|, bs + more);
    assert EncodeStr(bs) + more == V.Encode(|bs|) + (bs + more);
    assert (bs + more)[..|bs|] == bs && (bs + more)[|bs|..] == more;
  }

  /** Either the value comes back and leaves what followed it, or a length did not fit and it does not. */
  predicate Returns(o: Outcome, v: Value, more: seq<Byte>, fits: bool) {
    if fits then o == Got(v, more) else o.Got? ==> o.v != v
  }

  predicate ReturnsAll(m: Many, vs: seq<Value>, more: seq<Byte>, fits: bool) {
    if fits then m == GotAll(vs, more) else m.GotAll? ==> m.vs != vs
  }

  lemma {:induction false} DecodeOfEncode(s: Schema, v: Value, more: seq<Byte>)
    requires WellTyped(s, v)
    ensures Returns(Decode(s, Encode(s, v) + more), v, more, LengthsFit(s, v))
    decreases s, 1
  {
    match s
    case Int(size, signed) => IntRoundTrip(v.n, size, signed, more);
    case Bool => assert (Encode(s, v) + more)[1..] == more;
    case Str => StrRoundTrip(v.bs, more);
    case Sequence(elem) =>
      if |v.vs| < V.INT_LIMIT { ManyOfEncode(elem, v.vs, more); }
      SequenceOfEncode(elem, v.vs, more);
    case Array(elem, length) => ManyOfEncode(elem, v.vs, more);
    case Tuple(fields) => FieldsOfEncode(fields, v.vs, more);
    case ObjectHeader => HeaderOfEncode(v, more);
  }

  lemma SequenceOfEncode(elem: Schema, vs: seq<Value>, more: seq<Byte>)
    requires WellTyped(Sequence(elem), ListV(vs))
    requires |vs| < V.INT_LIMIT ==>
               ReturnsAll(DecodeMany(elem, |vs|, EncodeAll(elem, vs) + more), vs, more, AllFit(elem, vs))
    ensures var s, v := Sequence(elem), ListV(vs);
            Returns(Decode(s, Encode(s, v) + more), v, more, LengthsFit(s, v))
  {
    var body := EncodeAll(elem, vs);
    Regroup(V.Encode(|vs|), body, more);
    V.DecodeOfEncode(|vs|, body + more);
    if |vs| >= V.INT_LIMIT {
      LongSequence(elem, vs, body + more);
    }
  }

  lemma HeaderOfEncode(v: Value, more: seq<Byte>)
    requires WellTyped(ObjectHeader, v)
    ensures Returns(Decode(ObjectHeader, Encode(ObjectHeader, v) + more), v, more, LengthsFit(ObjectHeader, v))
  {
    var tail := if v.typenr == 0 then EncodeStr(v.name) else [];
    TypeNumber(v.typenr, tail + more);
    Regroup(BigEndian(v.typenr, 2), tail, more);
    if v.typenr == 0 {
      StrRoundTrip(v.name, more);
    }
  }

  lemma TypeNumber(typenr: nat, more: seq<Byte>)
    requires typenr < 65536
    ensures DecodeInt(2, false, BigEndian(typenr, 2) + more) == Got(IntV(typenr), more)
  {
    assert Pow256(1) == 256 && Pow256(2) == 65536;
    IntRoundTrip(typenr, 2, false, more);
  }

  lemma LongSequence(elem: Schema, vs: seq<Value>, bs: seq<Byte>)
    requires V.INT_LIMIT <= |vs|
    ensures var d := V.Outcome(|vs|, bs);
            d.Value? ==> var m := DecodeMany(elem, d.x, d.rest); m.GotAll? ==> m.vs != vs
  {
    var d := V.Outcome(|vs|, bs);
    if d.Value? {
      ManyHasLength(elem, d.x, d.rest);
    }
  }

  lemma {:induction false} ManyHasLength(elem: Schema, n: nat, bs: seq<Byte>)
    ensures var m := DecodeMany(elem, n, bs); m.GotAll? ==> |m.vs| == n
    decreases n
  {
    if n > 0 {
      var d := Decode(elem, bs);
      if d.Got? { ManyHasLength(elem, n - 1, d.rest); }
    }
  }

  lemma {:induction false} ManyOfEncode(elem: Schema, vs: seq<Value>, more: seq<Byte>)
    requires AllTyped(elem, vs)
    ensures ReturnsAll(DecodeMany(elem, |vs|, EncodeAll(elem, vs) + more), vs, more, AllFit(elem, vs))
    decreases elem, 2, |vs|
  {
    if vs == [] {
      assert EncodeAll(elem, vs) + more == more;
    } else {
      var tail := EncodeAll(elem, vs[1..]) + more;
      Regroup(Encode(elem, vs[0]), EncodeAll(elem, vs[1..]), more);
      DecodeOfEncode(elem, vs[0], tail);
      ManyOfEncode(elem, vs[1..], more);
      PrependReturns(vs, Decode(elem, Encode(elem, vs[0]) + tail), tail, LengthsFit(elem, vs[0]),
                     DecodeMany(elem, |vs| - 1, tail), more, AllFit(elem, vs[1..]));
    }
  }

  /** The first value and the others come back, or one of them does not. */
  lemma PrependReturns(vs: seq<Value>, o: Outcome, tail: seq<Byte>, fits: bool, m: Many, more: seq<Byte>, allFit: bool)
    requires vs != [] && Returns(o, vs[0], tail, fits) && (fits ==> ReturnsAll(m, vs[1..], more, allFit))
    ensures o.Got? && o.rest == tail ==> ReturnsAll(Prepend(o.v, m), vs, more, fits && allFit)
    ensures o.Got? && !fits ==> o.v != vs[0]
  {
    assert vs == [vs[0]] + vs[1..];
  }

  lemma {:induction false} FieldsOfEncode(fields: seq<Schema>, vs: seq<Value>, more: seq<Byte>)
    requires FieldsTyped(fields, vs)
    ensures ReturnsAll(DecodeFields(fields, EncodeFields(fields, vs) + more), vs, more, FieldsFit(fields, vs))
    decreases fields, 0
  {
    if fields == [] {
      assert EncodeFields(fields, vs) + more == more;
    } else {
      var tail := EncodeFields(fields[1..], vs[1..]) + more;
      assert EncodeFields(fields, vs) + more == Encode(fields[0], vs[0]) + tail;
      DecodeOfEncode(fields[0], vs[0], tail);
      FieldsOfEncode(fields[1..], vs[1..], more);
      assert vs == [vs[0]] + vs[1..];
    }
  }

  // ----- Main results

  /** A value of any type survives the round trip exactly when its lengths fit into an `int`. */
  lemma RoundTripIff(s: Schema, v: Value, more: seq<Byte>)
    requires WellTyped(s, v)
    ensures Decode(s, Encode(s, v) + more) == Got(v, more) <==> LengthsFit(s, v)
  {
    DecodeOfEncode(s, v, more);
  }

  /** A truncated encoding never decodes to a value: the input is found to end too early. */
  lemma PrefixIsRejected(s: Schema, v: Value, k: nat)
    requires WellTyped(s, v) && LengthsFit(s, v) && k < |Encode(s, v)|
    ensures Decode(s, Encode(s, v)[..k]) == Failed(V.Eof)
  {
    var bs := Encode(s, v);
    assert bs + [] == bs;
    DecodeOfEncode(s, v, []);
    PrefixOfAll(s, bs, v, k);
  }

  lemma PrefixOfAll(s: Schema, bs: seq<Byte>, v: Value, k: nat)
    requires Decode(s, bs) == Got(v, []) && k < |bs|
    ensures Decode(s, bs[..k]) == Failed(V.Eof)
  {
    assert bs[..k] + bs[k..] == bs;
    DecodeIsLocal(s, bs[..k], bs[k..]);
    NothingLeft(Decode(s, bs[..k]), Got(v, []), bs[k..]);
  }

  lemma NothingLeft(before: Outcome, after: Outcome, more: seq<Byte>)
    requires Extends(before, after, more) && more != [] && after.Got? && after.rest == []
    ensures before == Failed(V.Eof)
  {
    assert forall rest: seq<Byte> :: |rest + more| > 0;
  }

  /** The bytes consumed, alone, determine the value, whatever stands behind them. */
  lemma OnlyConsumed(s: Schema, bs: seq<Byte>) returns (c: seq<Byte>)
    ensures var d := Decode(s, bs);
            d.Got? ==> bs == c + d.rest && forall other: seq<Byte> :: Decode(s, c + other) == Got(d.v, other)
  {
    c := Consumes(s, bs);
    var d := Decode(s, bs);
    if d.Got? {
      forall other: seq<Byte> ensures Decode(s, c + other) == Got(d.v, other) {
        DecodeIsLocal(s, c, other);
        assert [] + other == other;
      }
    }
  }

  /** So no encoding of a value is the beginning of the encoding of another value of the same type. */
  lemma EncodingsAreUnambiguous(s: Schema, v: Value, w: Value, more: seq<Byte>)
    requires WellTyped(s, v) && LengthsFit(s, v) && WellTyped(s, w) && LengthsFit(s, w)
    requires Encode(s, v) + more == Encode(s, w)
    ensures v == w && more == []
  {
    DecodeOfEncode(s, v, more);
    DecodeOfEncode(s, w, []);
    assert Encode(s, w) + [] == Encode(s, w);
  }

  // ----- The serializer and deserializer objects

  /** Appends to a container that can always grow. */
  class StreamSerializer {
    var container: seq<Byte>

    constructor ()
      ensures container == []
    {
      container := [];
    }

    method ApplyRaw(bs: seq<Byte>)
      modifies this
      ensures container == old(container) + bs
    {
      container := container + bs;
    }

    method BeginSequence(n: nat)
      requires n < V.WORD64
      modifies this
      ensures container == old(container) + V.Encode(n)
    {
      var code := V.EncodeWord(n);
      ApplyRaw(code);
    }

    method ApplyString(bs: seq<Byte>)
      requires |bs| < V.WORD64
      modifies this
      ensures container == old(container) + EncodeStr(bs)
    {
      BeginSequence(|bs|);
      ApplyRaw(bs);
      assert container == old(container) + V.Encode(|bs|) + bs;
    }

    method Apply(s: Schema, v: Value)
      requires WellTyped(s, v)
      modifies this
      ensures container == old(container) + Encode(s, v)
      decreases s, 1
    {
      match s {
        case Int(size, _) => ApplyRaw(BigEndian(ToWord(v.n, size), size));
        case Bool => ApplyRaw([if v.b then 1 else 0]);
        case Str => ApplyString(v.bs);
        case Sequence(elem) => ApplySequence(elem, v.vs);
        case Array(elem, _) => ApplyAll(elem, v.vs);
        case Tuple(fields) => ApplyFields(fields, v.vs);
        case ObjectHeader => BeginObject(v.typenr, v.name);
      }
    }

    method BeginObject(typenr: nat, name: seq<Byte>)
      requires WellTyped(ObjectHeader, HeaderV(typenr, name))
      modifies this
      ensures container == old(container) + Encode(ObjectHeader, HeaderV(typenr, name))
    {
      ApplyRaw(BigEndian(typenr, 2));
      if typenr == 0 {
        ApplyString(name);
      }
      assert container == old(container) + (BigEndian(typenr, 2) + (if typenr == 0 then EncodeStr(name) else []));
    }

    method ApplySequence(elem: Schema, vs: seq<Value>)
      requires |vs| < V.WORD64 && AllTyped(elem, vs)
      modifies this
      ensures container == old(container) + (V.Encode(|vs|) + EncodeAll(elem, vs))
      decreases elem, 3
    {
      BeginSequence(|vs|);
      ApplyAll(elem, vs);
    }

    method ApplyAll(elem: Schema, vs: seq<Value>)
      requires AllTyped(elem, vs)
      modifies this
      ensures container == old(container) + EncodeAll(elem, vs)
      decreases elem, 2
    {
      var todo := vs;
      while todo != []
        invariant AllTyped(elem, todo)
        invariant container + EncodeAll(elem, todo) == old(container) + EncodeAll(elem, vs)
        decreases |todo|
      {
        Regroup(container, Encode(elem, todo[0]), EncodeAll(elem, todo[1..]));
        Apply(elem, todo[0]);
        todo := todo[1..];
      }
    }

    method ApplyFields(fields: seq<Schema>, vs: seq<Value>)
      requires FieldsTyped(fields, vs)
      modifies this
      ensures container == old(container) + EncodeFields(fields, vs)
      decreases fields, 0
    {
      if fields != [] {
        ghost var before := container;
        Apply(fields[0], vs[0]);
        ApplyFields(fields[1..], vs[1..]);
        Regroup(before, Encode(fields[0], vs[0]), EncodeFields(fields[1..], vs[1..]));
      }
    }
  }

  /** A stream buffer over a fixed array of bytes. */
  class ArrayBuf {
    const data: seq<Byte>
    var pos: nat

    ghost predicate Valid()
      reads this
    {
      pos <= |data|
    }

    ghost function Unread(): seq<Byte>
      requires Valid()
      reads this
    {
      data[pos..]
    }

    constructor (data: seq<Byte>)
      ensures Valid() && this.data == data && Unread() == data
    {
      this.data, pos := data, 0;
    }

    /** Reads up to `n` bytes. */
    method Sgetn(n: nat) returns (bs: seq<Byte>)
      requires Valid()
      modifies this
      ensures Valid()
      ensures |bs| == (if n <= |old(Unread())| then n else |old(Unread())|)
      ensures old(Unread()) == bs + Unread()
    {
      var available := |data| - pos;
      var actual := if n <= available then n else available;
      bs := data[pos..pos + actual];
      pos := pos + actual;
    }

    method Sbumpc() returns (b: Option<Byte>)
      requires Valid()
      modifies this
      ensures Valid()
      ensures b.None? ==> old(Unread()) == [] && Unread() == []
      ensures b.Some? ==> old(Unread()) == [b.value] + Unread()
    {
      if pos == |data| {
        return None;
      }
      b := Some(data[pos]);
      pos := pos + 1;
    }
  }

  /** Each method reads one item; where the buffer stands after an error is not promised. */
  class StreamDeserializer {
    const buf: ArrayBuf

    constructor (data: seq<Byte>)
      ensures fresh(buf) && buf.Valid() && buf.Unread() == data
    {
      buf := new ArrayBuf(data);
    }

    method VarbyteDecode() returns (r: Result<nat, V.Failure>)
      requires buf.Valid()
      modifies buf
      ensures buf.Valid()
      ensures V.Decode(old(buf.Unread())) ==
              match r
              case Ok(x) => V.Value(x, buf.Unread())
              case Err(why) => V.Failed(why)
    {
      var n, x: nat := 0, 0;
      while true
        invariant buf.Valid()
        invariant V.DecodeFrom(buf.Unread(), n, x) == V.Decode(old(buf.Unread()))
        decreases |buf.Unread()|
      {
        ghost var unread := buf.Unread();
        var c := buf.Sbumpc();
        if c.None? {
          return Err(V.Eof);
        }
        var low7 := c.value;
        assert unread[0] == low7 && unread[1..] == buf.Unread();
        var part := V.Shifted(low7 % 128, n);
        if part.None? {
          return Err(V.Undefined);
        }
        n, x := n + 1, Or(x, part.value);
        if low7 < 128 {
          return Ok(x);
        }
      }
    }

    /** `apply_raw` with its range check. */
    method ApplyRaw(n: nat) returns (r: Result<seq<Byte>, V.Failure>)
      requires buf.Valid()
      modifies buf
      ensures buf.Valid()
      ensures r == (if n > |old(buf.Unread())| then Err(V.Eof) else Ok(old(buf.Unread())[..n]))
      ensures r.Ok? ==> buf.Unread() == old(buf.Unread())[n..]
    {
      var bs := buf.Sgetn(n);
      if |bs| != n {
        return Err(V.Eof);
      }
      assert old(buf.Unread())[..n] == bs;
      r := Ok(bs);
    }

    method ApplyInt(size: nat, signed: bool) returns (r: Result<int, V.Failure>)
      requires buf.Valid()
      modifies buf
      ensures buf.Valid()
      ensures DecodeInt(size, signed, old(buf.Unread())) ==
              match r
              case Ok(n) => Got(IntV(n), buf.Unread())
              case Err(why) => Failed(why)
    {
      var raw := ApplyRaw(size);
      match raw {
        case Err(why) => r := Err(why);
        case Ok(bs) => r := Ok(FromWord(FromBigEndian(bs), size, signed));
      }
    }

    method ApplyString() returns (r: Result<seq<Byte>, V.Failure>)
      requires buf.Valid()
      modifies buf
      ensures buf.Valid()
      ensures DecodeStr(old(buf.Unread())) ==
              match r
              case Ok(bs) => Got(StrV(bs), buf.Unread())
              case Err(why) => Failed(why)
    {
      var size := VarbyteDecode();
      match size {
        case Err(why) => r := Err(why);
        case Ok(n) => r := ApplyRaw(n);
      }
    }

    method Apply(s: Schema) returns (r: Result<Value, V.Failure>)
      requires buf.Valid()
      modifies buf
      ensures buf.Valid()
      ensures Decode(s, old(buf.Unread())) ==
              match r
              case Ok(v) => Got(v, buf.Unread())
              case Err(why) => Failed(why)
      decreases s, 1
    {
      match s {
        case Int(size, signed) =>
          var n := ApplyInt(size, signed);
          r := if n.Ok? then Ok(IntV(n.value)) else Err(n.error);
        case Bool =>
          var raw := ApplyRaw(1);
          r := if raw.Ok? then Ok(BoolV(raw.value[0] != 0)) else Err(raw.error);
        case Str =>
          var bs := ApplyString();
          r := if bs.Ok? then Ok(StrV(bs.value)) else Err(bs.error);
        case Sequence(elem) =>
          var n := VarbyteDecode();
          match n {
            case Err(why) => r := Err(why);
            case Ok(length) => r := ApplyMany(elem, length);
          }
        case Array(elem, length) => r := ApplyMany(elem, length);
        case Tuple(fields) => r := ApplyFields(fields);
        case ObjectHeader =>
          var typenr := ApplyInt(2, false);
          if typenr.Err? {
            return Err(typenr.error);
          }
          if typenr.value != 0 {
            return Ok(HeaderV(typenr.value, []));
          }
          var name := ApplyString();
          r := if name.Ok? then Ok(HeaderV(0, name.value)) else Err(name.error);
      }
    }

    method ApplyMany(elem: Schema, n: nat) returns (r: Result<Value, V.Failure>)
      requires buf.Valid()
      modifies buf
      ensures buf.Valid()
      ensures AsList(DecodeMany(elem, n, old(buf.Unread()))) ==
              match r
              case Ok(v) => Got(v, buf.Unread())
              case Err(why) => Failed(why)
      decreases elem, 2
    {
      var xs := [];
      for i := 0 to n
        invariant buf.Valid()
        invariant DecodeMany(elem, n, old(buf.Unread())) == PrependAll(xs, DecodeMany(elem, n - i, buf.Unread()))
      {
        ghost var todo := DecodeMany(elem, n - i, buf.Unread());
        var x := Apply(elem);
        match x {
          case Err(why) => return Err(why);
          case Ok(v) =>
            assert todo == Prepend(v, DecodeMany(elem, n - i - 1, buf.Unread()));
            PrependOne(xs, v, DecodeMany(elem, n - i - 1, buf.Unread()));
            xs := xs + [v];
        }
      }
      assert xs + [] == xs;
      r := Ok(ListV(xs));
    }

    method ApplyFields(fields: seq<Schema>) returns (r: Result<Value, V.Failure>)
      requires buf.Valid()
      modifies buf
      ensures buf.Valid()
      ensures r.Ok? ==> r.value.ListV?
      ensures AsList(DecodeFields(fields, old(buf.Unread()))) ==
              match r
              case Ok(v) => Got(v, buf.Unread())
              case Err(why) => Failed(why)
      decreases fields, 0
    {
      if fields == [] {
        return Ok(ListV([]));
      }
      var x := Apply(fields[0]);
      if x.Err? {
        return Err(x.error);
      }
      var xs := ApplyFields(fields[1..]);
      r := if xs.Ok? then Ok(ListV([x.value] + xs.value.vs)) else xs;
    }
  }

  function PrependAll(vs: seq<Value>, m: Many): Many {
    if m.GotAll? then m.(vs := vs + m.vs) else m
  }

  lemma PrependOne(vs: seq<Value>, v: Value, m: Many)
    ensures PrependAll(vs, Prepend(v, m)) == PrependAll(vs + [v], m)
  {
    if m.GotAll? {
      assert vs + ([v] + m.vs) == vs + [v] + m.vs;
    }
  }
}
