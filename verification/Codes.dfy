/** What the decoder of lengths makes of every code, also of those that are longer than they need to be. */
module Codes {
  import opened Wrappers
  import opened Bits
  import opened Varbyte

  /** The meaning if an `int` holds it, its sign extension below 2^32, and nothing defined beyond five bytes. */
  function CodeOutcome(bytes: nat, x: nat, rest: seq<Byte>): Decoded {
    if bytes <= 5 then Outcome(x, rest) else Failed(Undefined)
  }

  lemma HeadOfCode(bs: seq<Byte>, rest: seq<Byte>)
    requires IsCode(bs)
    ensures (bs + rest)[0] == bs[0] && (bs + rest)[1..] == bs[1..] + rest
    ensures |bs| == 1 <==> bs[0] < 128
    ensures |bs| > 1 ==> IsCode(bs[1..])
  {
  }

  lemma MeaningOfCode(bs: seq<Byte>)
    requires bs != []
    ensures Meaning(bs) % 128 == bs[0] % 128 && Meaning(bs) / 128 == Meaning(bs[1..])
  {
    DivMod(Meaning(bs), 128, Meaning(bs[1..]), bs[0] % 128);
  }

  lemma LastByte(b: Byte, n: nat, acc: nat, rest: seq<Byte>)
    requires b < 128 && n <= 4 && acc < Pow128(n)
    ensures DecodeFrom([b] + rest, n, acc) == Outcome(acc + b * Pow128(n), rest)
  {
    OnlyByte(b, rest);
    PowersOf128();
    if Shifted(b, n).Some? { DisjointBits(acc, b, n); }
    if n < 4 {
      SmallProduct(b, n);
      SmallTotal(b, n, acc);
    }
  }

  /** A byte with more to come, while the shift is small. */
  lemma LowByte(bs: seq<Byte>, n: nat, acc: nat, rest: seq<Byte>)
    requires IsCode(bs) && |bs| > 1 && n < 4 && acc < Pow128(n)
    ensures DecodeFrom(bs + rest, n, acc) == DecodeFrom(bs[1..] + rest, n + 1, acc + bs[0] % 128 * Pow128(n))
  {
    HeadOfCode(bs, rest);
    SmallProduct(bs[0] % 128, n);
    DisjointBits(acc, bs[0] % 128, n);
  }

  lemma TooLong(bs: seq<Byte>, n: nat, acc: nat, rest: seq<Byte>)
    requires IsCode(bs) && (n == 5 || (n == 4 && |bs| > 1))
    ensures DecodeFrom(bs + rest, n, acc) == Failed(Undefined)
  {
    HeadOfCode(bs, rest);
    if n == 4 {
      HeadOfCode(bs[1..], rest);
    }
  }

  lemma {:induction false} DecodeRestOfCode(bs: seq<Byte>, n: nat, acc: nat, rest: seq<Byte>)
    requires IsCode(bs) && n <= 5 && (n <= 4 ==> acc < Pow128(n))
    ensures DecodeFrom(bs + rest, n, acc) == CodeOutcome(n + |bs|, acc + Meaning(bs) * Pow128(n), rest)
    decreases |bs|
  {
    HeadOfCode(bs, rest);
    if n == 5 || (n == 4 && |bs| > 1) {
      TooLong(bs, n, acc, rest);
    } else if |bs| == 1 {
      assert bs == [bs[0]] && bs[1..] == [];
      LastByte(bs[0], n, acc, rest);
    } else {
      LowByte(bs, n, acc, rest);
      MeaningOfCode(bs);
      NextAccumulator(Meaning(bs), n, acc);
      DecodeRestOfCode(bs[1..], n + 1, acc + bs[0] % 128 * Pow128(n), rest);
    }
  }

  /**
   A code of at most five bytes, minimal or not, is read as what it means, up to the limits of an `int`;
   a longer one is undefined whatever it means.
   */
  lemma DecodeOfCode(bs: seq<Byte>, rest: seq<Byte>)
    requires IsCode(bs)
    ensures Decode(bs + rest)
            == if |bs| > 5 then Failed(Undefined)
               else if Meaning(bs) < INT_LIMIT then Value(Meaning(bs), rest)
               else if Meaning(bs) < WORD32 then Value(Meaning(bs) + (WORD64 - WORD32), rest)
               else Failed(Undefined)
  {
    assert Pow128(0) == 1;
    DecodeRestOfCode(bs, 0, 0, rest);
  }
}
