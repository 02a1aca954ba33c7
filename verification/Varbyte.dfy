/**
 The variable-byte code of lengths: seven bits a byte, least significant first, the top bit set on
 every byte but the last.  The encoder works on 64-bit words; the decoder shifts a 32-bit `int`.
 */
module Varbyte {
  import opened Wrappers
  import opened Bits

  type Byte = b: int | 0 <= b < 256

  const WORD64: nat := 0x1_0000_0000_0000_0000
  const WORD32: nat := 0x1_0000_0000
  const INT_LIMIT: nat := 0x8000_0000

  /** `Undefined` stands for a shift of an `int` that the language leaves undefined. */
  datatype Failure = Eof | Undefined

  datatype Decoded = Value(x: nat, rest: seq<Byte>) | Failed(why: Failure)

  function Pow128(n: nat): (r: nat)
    ensures r > 0
  {
    if n == 0 then 1 else 128 * Pow128(n - 1)
  }

  // ----- What a code means

  /** Every byte but the last carries the continuation bit. */
  predicate IsCode(bs: seq<Byte>) {
    bs != [] && bs[|bs| - 1] < 128 && forall i :: 0 <= i < |bs| - 1 ==> bs[i] >= 128
  }

  function Meaning(bs: seq<Byte>): nat {
    if bs == [] then 0 else bs[0] % 128 + 128 * Meaning(bs[1..])
  }

  /** No shorter code has the same meaning. */
  predicate IsMinimal(bs: seq<Byte>) {
    |bs| == 1 || (|bs| > 1 && bs[|bs| - 1] != 0)
  }

  function Encode(x: nat): seq<Byte> {
    if x <= 0x7f then [x] else [x % 128 + 128] + Encode(x / 128)
  }

  /** The encoder's output is the one shortest code with the meaning it should have. */
  lemma {:induction false} EncodeIsRight(x: nat)
    ensures IsCode(Encode(x)) && IsMinimal(Encode(x)) && Meaning(Encode(x)) == x
  {
    if x > 0x7f {
      EncodeIsRight(x / 128);
      assert Encode(x)[1..] == Encode(x / 128);
    }
  }

  lemma {:induction false} MinimalCodeIsUnique(bs: seq<Byte>)
    requires IsCode(bs) && IsMinimal(bs)
    ensures bs == Encode(Meaning(bs))
  {
    if |bs| == 1 {
      assert bs[1..] == [] && bs == [bs[0]];
    } else {
      MinimalCodeIsUnique(bs[1..]);
      MinimalIsPositive(bs[1..]);
      CodeOneMore(bs);
    }
  }

  lemma CodeOneMore(bs: seq<Byte>)
    requires |bs| > 1 && bs[0] >= 128 && Meaning(bs[1..]) > 0 && bs[1..] == Encode(Meaning(bs[1..]))
    ensures bs == Encode(Meaning(bs))
  {
    EncodeOneMore(bs[0], Meaning(bs[1..]));
    assert bs == [bs[0]] + bs[1..];
  }

  lemma EncodeOneMore(b: Byte, m: nat)
    requires b >= 128 && m > 0
    ensures Encode(b % 128 + 128 * m) == [b] + Encode(m)
  {
    DivMod(b, 128, 1, b - 128);
    DivMod(b - 128 + 128 * m, 128, m, b - 128);
  }

  lemma {:induction false} MinimalIsPositive(bs: seq<Byte>)
    requires IsCode(bs) && bs[|bs| - 1] != 0
    ensures Meaning(bs) > 0
  {
    if |bs| > 1 {
      MinimalIsPositive(bs[1..]);
    }
  }

  /** The encoder: `buf` is the scratch space, `i` its write position. */
  method EncodeWord(x: nat) returns (bs: seq<Byte>)
    requires x < WORD64
    ensures bs == Encode(x) && 1 <= |bs| <= 10
  {
    var buf := new Byte[16](_ => 0);
    var i, y := 0, x;
    PowersOf128();
    while y > 0x7f
      invariant 0 <= i <= 9 && 0 <= y && Room(y, 9 - i)
      invariant Encode(x) == buf[..i] + Encode(y)
    {
      ghost var before := buf[..i];
      EncodeStep(before, y);
      HighPart(y, 9 - i);
      var low7 := y % 128;
      buf[i] := low7 + 128;
      assert buf[..i + 1] == before + [low7 + 128];
      i, y := i + 1, y / 128;
    }
    ghost var before := buf[..i];
    buf[i] := y % 128;
    assert buf[..i + 1] == before + [y];
    bs := buf[..i + 1];
  }

  lemma EncodeStep(prefix: seq<Byte>, y: nat)
    requires y > 0x7f
    ensures prefix + Encode(y) == prefix + [y % 128 + 128] + Encode(y / 128)
  {
  }

  /** `y` takes at most `k` more bytes and a last one. */
  predicate Room(y: nat, k: nat) {
    y < 2 * Pow128(k)
  }

  lemma HighPart(y: nat, k: nat)
    requires 0x7f < y && Room(y, k)
    ensures k > 0 && Room(y / 128, k - 1)
  {
  }

  lemma PowersOf128()
    ensures Pow128(2) == 16384 && Pow128(4) == 0x1000_0000 && Pow128(5) == 0x8_0000_0000
    ensures Pow128(9) == 0x8000_0000_0000_0000
  {
    assert Pow128(1) == 128 && Pow128(2) == 16384 && Pow128(3) == 2097152;
    assert Pow128(4) == 268435456 && Pow128(5) == 34359738368 && Pow128(6) == 4398046511104;
    assert Pow128(7) == 562949953421312 && Pow128(8) == 72057594037927936;
  }

  // ----- The decoder

  /** `(low7 & 0x7F) << (7 * n)` on a 32-bit int, then converted to a 64-bit word. */
  function Shifted(low7: nat, n: nat): Option<nat>
    requires low7 < 128
  {
    if n > 4 then None
    else
      var product := low7 * Pow128(n);
      if product < INT_LIMIT then Some(product)
      else if product < WORD32 then Some(product + (WORD64 - WORD32))
      else None
  }

  /** `x |= part` for every byte, until one without continuation bit. */
  function DecodeFrom(bs: seq<Byte>, n: nat, x: nat): Decoded {
    if bs == [] then Failed(Eof)
    else
      match Shifted(bs[0] % 128, n)
      case None => Failed(Undefined)
      case Some(part) =>
        if bs[0] >= 128 then DecodeFrom(bs[1..], n + 1, Or(x, part)) else Value(Or(x, part), bs[1..])
  }

  function Decode(bs: seq<Byte>): Decoded {
    DecodeFrom(bs, 0, 0)
  }

  /** The new part begins above the bits read so far, so that `|` is a sum, and fits into a word. */
  lemma DisjointBits(x: nat, low7: nat, n: nat)
    requires low7 < 128 && x < Pow128(n) && Shifted(low7, n).Some?
    ensures var part := Shifted(low7, n).value; Or(x, part) == x + part < WORD64
  {
    PowersOf2(n);
    if low7 * Pow128(n) < INT_LIMIT {
      OrIsSum(x, low7, 7 * n);
      PowersGrow(n);
    } else {
      HighShift(low7, n);
      OrIsSum(x, low7 + 0xF_FFFF_FFF0, 28);
    }
  }

  lemma PowersGrow(n: nat)
    requires n <= 4
    ensures Pow128(n) <= 0x1000_0000
  {
    PowersOf128();
    assert Pow128(0) == 1 && Pow128(1) == 128 && Pow128(3) == 2097152;
  }

  lemma PowersOf2(n: nat)
    requires n <= 4
    ensures Pow128(n) == Pow2(7 * n)
  {
    if n > 0 {
      PowersOf2(n - 1);
      SevenMore(7 * n - 7);
    }
  }

  lemma SevenMore(k: nat)
    ensures Pow2(k + 7) == 128 * Pow2(k)
  {
    assert Pow2(k + 1) == 2 * Pow2(k) && Pow2(k + 2) == 4 * Pow2(k) && Pow2(k + 3) == 8 * Pow2(k);
    assert Pow2(k + 4) == 16 * Pow2(k) && Pow2(k + 5) == 32 * Pow2(k) && Pow2(k + 6) == 64 * Pow2(k);
  }

  /** Only the fifth byte can reach the sign bit. */
  lemma HighShift(low7: nat, n: nat)
    requires low7 < 128 && n <= 4 && low7 * Pow128(n) >= INT_LIMIT
    ensures n == 4 && Pow2(28) == 0x1000_0000
  {
    PowersOf2(4);
    PowersOf128();
    if n < 4 { SmallProduct(low7, n); }
  }

  /** What the decoder makes of the first byte of a code. */
  lemma DecodeDigit(y: nat, n: nat, acc: nat, rest: seq<Byte>)
    requires n <= 4 && acc < Pow128(n)
    ensures DecodeFrom(Encode(y) + rest, n, acc)
            == match Shifted(y % 128, n)
               case None => Failed(Undefined)
               case Some(part) =>
                 if y > 0x7f then DecodeFrom(Encode(y / 128) + rest, n + 1, acc + part) else Value(acc + part, rest)
  {
    if y > 0x7f {
      FirstOfMany(y % 128, Encode(y / 128), rest);
    } else {
      OnlyByte(y, rest);
    }
    if Shifted(y % 128, n).Some? {
      DisjointBits(acc, y % 128, n);
    }
  }

  lemma FirstOfMany(low7: nat, tail: seq<Byte>, rest: seq<Byte>)
    requires low7 < 128
    ensures var bs := [low7 + 128] + tail + rest; bs[0] == low7 + 128 && bs[0] % 128 == low7 && bs[1..] == tail + rest
  {
    DivMod(low7 + 128, 128, 1, low7);
  }

  lemma OnlyByte(y: nat, rest: seq<Byte>)
    requires y < 128
    ensures var bs := [y] + rest; bs[0] == y && y % 128 == y && bs[1..] == rest
  {
  }

  lemma SmallProduct(d: nat, n: nat)
    requires d < 128 && n < 4
    ensures d * Pow128(n) < INT_LIMIT
  {
    assert Pow128(0) == 1 && Pow128(1) == 128 && Pow128(2) == 16384 && Pow128(3) == 2097152;
  }

  /** Below 2^31 the word itself, below 2^32 its sign extension, and beyond that nothing defined. */
  function Outcome(x: nat, rest: seq<Byte>): Decoded {
    if x < INT_LIMIT then Value(x, rest)
    else if x < WORD32 then Value(x + (WORD64 - WORD32), rest)
    else Failed(Undefined)
  }

  /** What the decoder makes of the code of any word. */
  lemma DecodeOfEncode(x: nat, rest: seq<Byte>)
    ensures Decode(Encode(x) + rest) == Outcome(x, rest)
  {
    assert Pow128(0) == 1;
    DecodeRest(x, 0, 0, rest);
  }

  lemma {:induction false} DecodeRest(y: nat, n: nat, acc: nat, rest: seq<Byte>)
    requires n <= 4 && acc < Pow128(n) && (n == 4 ==> y > 0)
    ensures DecodeFrom(Encode(y) + rest, n, acc) == Outcome(acc + y * Pow128(n), rest)
    decreases 4 - n
  {
    if n == 4 {
      DecodeDigit(y, n, acc, rest);
      FifthDigit(y, acc, rest);
    } else {
      if y > 0x7f {
        var next := MoreDigits(y, n, acc, rest);
        DecodeRest(y / 128, n + 1, next, rest);
      } else {
        LowDigit(y, n, acc, rest);
        SmallTotal(y, n, acc);
      }
    }
  }

  /** While the shift is small, the new part is the digit with the weight of its place. */
  lemma LowDigit(y: nat, n: nat, acc: nat, rest: seq<Byte>)
    requires n < 4 && acc < Pow128(n)
    ensures DecodeFrom(Encode(y) + rest, n, acc)
            == if y > 0x7f then DecodeFrom(Encode(y / 128) + rest, n + 1, acc + y % 128 * Pow128(n))
               else Value(acc + y * Pow128(n), rest)
  {
    DecodeDigit(y, n, acc, rest);
    SmallProduct(y % 128, n);
  }

  lemma MoreDigits(y: nat, n: nat, acc: nat, rest: seq<Byte>) returns (next: nat)
    requires n < 4 && acc < Pow128(n) && y > 0x7f
    ensures next < Pow128(n + 1) && next + y / 128 * Pow128(n + 1) == acc + y * Pow128(n)
    ensures DecodeFrom(Encode(y) + rest, n, acc) == DecodeFrom(Encode(y / 128) + rest, n + 1, next)
  {
    next := acc + y % 128 * Pow128(n);
    LowDigit(y, n, acc, rest);
    NextAccumulator(y, n, acc);
  }

  lemma NextAccumulator(y: nat, n: nat, acc: nat)
    requires n < 4 && acc < Pow128(n)
    ensures acc + y % 128 * Pow128(n) < Pow128(n + 1)
    ensures acc + y % 128 * Pow128(n) + y / 128 * Pow128(n + 1) == acc + y * Pow128(n)
  {
    var p, q, r := Pow128(n), y / 128, y % 128;
    assert Pow128(n + 1) == 128 * p;
    Distribute(q, r, p);
    assert r <= 127;
    assert r * p <= 127 * p;
  }

  lemma Distribute(q: nat, r: nat, p: nat)
    ensures r * p + q * (128 * p) == (128 * q + r) * p
  {
  }

  lemma SmallTotal(y: nat, n: nat, acc: nat)
    requires y < 128 && n < 4 && acc < Pow128(n)
    ensures acc + y * Pow128(n) < INT_LIMIT
  {
    assert Pow128(0) == 1 && Pow128(1) == 128 && Pow128(2) == 16384 && Pow128(3) == 2097152;
  }

  lemma FifthDigit(y: nat, acc: nat, rest: seq<Byte>)
    requires y > 0 && acc < Pow128(4)
    requires DecodeFrom(Encode(y) + rest, 4, acc)
             == match Shifted(y % 128, 4)
                case None => Failed(Undefined)
                case Some(part) =>
                  if y > 0x7f then DecodeFrom(Encode(y / 128) + rest, 5, acc + part) else Value(acc + part, rest)
    ensures DecodeFrom(Encode(y) + rest, 4, acc) == Outcome(acc + y * Pow128(4), rest)
  {
    PowersOf128();
    if y > 0x7f {
      var bs := Encode(y / 128) + rest;
      assert bs != [] && Shifted(bs[0] % 128, 5) == None;
      assert DecodeFrom(bs, 5, 0) == Failed(Undefined);
    }
  }

  /** The length law holds for exactly the lengths an `int` can hold. */
  lemma RoundTripIff(x: nat, rest: seq<Byte>)
    requires x < WORD64
    ensures Decode(Encode(x) + rest) == Value(x, rest) <==> x < INT_LIMIT
  {
    DecodeOfEncode(x, rest);
  }

  /** `after` is what the decoder makes of bytes that it made `before` of, with `more` behind them. */
  predicate Extends(before: Decoded, after: Decoded, more: seq<Byte>) {
    if before.Value? then after == Value(before.x, before.rest + more)
    else before.why == Undefined ==> after == before
  }

  predicate Suffix(rest: seq<Byte>, bs: seq<Byte>) {
    |rest| <= |bs| && rest == bs[|bs| - |rest|..]
  }

  /** What is decoded, or found undefined, depends only on the bytes consumed, of which there are some. */
  lemma {:induction false} DecodeIsLocal(bs: seq<Byte>, n: nat, x: nat, more: seq<Byte>)
    ensures Extends(DecodeFrom(bs, n, x), DecodeFrom(bs + more, n, x), more)
    ensures var d := DecodeFrom(bs, n, x); d.Value? ==> bs != [] && Suffix(d.rest, bs[1..])
    decreases |bs|
  {
    if bs != [] {
      assert (bs + more)[0] == bs[0] && (bs + more)[1..] == bs[1..] + more;
      var part := Shifted(bs[0] % 128, n);
      if part.Some? && bs[0] >= 128 {
        DecodeIsLocal(bs[1..], n + 1, Or(x, part.value), more);
        SuffixOfTail(bs[1..], DecodeFrom(bs[1..], n + 1, Or(x, part.value)));
      }
    }
  }

  lemma SuffixOfTail(bs: seq<Byte>, d: Decoded)
    requires d.Value? ==> bs != [] && Suffix(d.rest, bs[1..])
    ensures d.Value? ==> Suffix(d.rest, bs)
  {
  }

  lemma {:induction false} Consumes(bs: seq<Byte>, n: nat, x: nat) returns (c: seq<Byte>)
    ensures var d := DecodeFrom(bs, n, x);
            d.Value? ==> bs == c + d.rest && DecodeFrom(c, n, x) == Value(d.x, [])
    decreases |bs|
  {
    c := [];
    if bs != [] {
      var part := Shifted(bs[0] % 128, n);
      if part.Some? && bs[0] >= 128 {
        c := Consumes(bs[1..], n + 1, Or(x, part.value));
        assert ([bs[0]] + c)[1..] == c;
      }
      c := [bs[0]] + c;
      assert bs == [bs[0]] + bs[1..];
    }
  }

  /** The bytes consumed, alone, determine what is decoded, whatever stands behind them. */
  lemma OnlyConsumed(bs: seq<Byte>, n: nat, x: nat) returns (c: seq<Byte>)
    ensures var d := DecodeFrom(bs, n, x);
            d.Value? ==> bs == c + d.rest
                         && forall other: seq<Byte> :: DecodeFrom(c + other, n, x) == Value(d.x, other)
  {
    c := Consumes(bs, n, x);
    var d := DecodeFrom(bs, n, x);
    if d.Value? {
      forall other: seq<Byte> ensures DecodeFrom(c + other, n, x) == Value(d.x, other) {
        DecodeIsLocal(c, n, x, other);
        assert [] + other == other;
      }
    }
  }
}
