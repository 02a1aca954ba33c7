/**
 Tokens of type lists: a 32-bit number that receives the 6-bit number of each type in turn.
 It is computed at compile time for a whole list and at run time one type after the other.
 */
module TypeToken {
  import opened Bits

  /** There are 38 built-in types, numbered from 1; every other type has the number 0. */
  type TypeNr = n: nat | n <= 38

  const WORD32: nat := 0x1_0000_0000

  type Word = n: nat | n < 0x1_0000_0000

  const Empty: Word := 0xFFFF_FFFF

  /** `(token << 6) | nr` on 32 bits. */
  function AddToTypeToken(token: Word, nr: TypeNr): Word
  {
    ShiftOrIsSum(token, nr);
    Or(token * 64 % WORD32, nr)
  }

  /** The shift leaves six zero bits, so the number is simply added. */
  lemma ShiftOrIsSum(token: Word, nr: TypeNr)
    ensures Or(token * 64 % WORD32, nr) == token * 64 % WORD32 + nr < WORD32
  {
    DivMod(token * 64, WORD32, token / 0x400_0000, token % 0x400_0000 * 64);
    assert Pow2(1) == 2 && Pow2(2) == 4 && Pow2(3) == 8 && Pow2(4) == 16 && Pow2(5) == 32;
    OrIsSum(nr, token % 0x400_0000, 6);
  }

  function TokenFrom(r: Word, ts: seq<TypeNr>): Word
    decreases |ts|
  {
    if ts == [] then r else TokenFrom(AddToTypeToken(r, ts[0]), ts[1..])
  }

  function Token(ts: seq<TypeNr>): Word {
    TokenFrom(Empty, ts)
  }

  /** The last `k` types of a list, and two bits of the one before them. */
  function LastK(ts: seq<TypeNr>, k: nat): seq<TypeNr> {
    if |ts| <= k then ts else ts[|ts| - k..]
  }

  function NextBits(ts: seq<TypeNr>, k: nat): TypeNr {
    if |ts| <= k then 3 else ts[|ts| - k - 1] % 4
  }

  /** What a token keeps of a list. */
  function LastFive(ts: seq<TypeNr>): seq<TypeNr> {
    LastK(ts, 5)
  }

  function SixthBits(ts: seq<TypeNr>): TypeNr {
    NextBits(ts, 5)
  }

  // ----- The lowest bits of a token

  /** 2 to the power of `6 k + 2`. */
  function LowBits(k: nat): (r: nat)
    ensures r > 0
  {
    if k == 0 then 4 else 64 * LowBits(k - 1)
  }

  function Low(k: nat, token: Word): nat {
    token % LowBits(k)
  }

  lemma LowBitsFit(k: nat) returns (d: nat)
    requires k <= 4
    ensures 0x400_0000 == LowBits(k) * d
  {
    assert LowBits(0) == 4 && LowBits(1) == 256 && LowBits(2) == 16384 && LowBits(3) == 1048576;
    assert LowBits(4) == 67108864;
    d := if k == 0 then 0x100_0000 else if k == 1 then 0x4_0000 else if k == 2 then 0x1000
         else if k == 3 then 64 else 1;
  }

  /** Adding a type moves the bits of a token up by six. */
  lemma LowStep(k: nat, a: Word, t: TypeNr)
    requires 0 < k <= 5
    ensures Low(k, AddToTypeToken(a, t)) == Low(k - 1, a) * 64 + t
  {
    var m := LowBits(k - 1);
    var d := LowBitsFit(k - 1);
    ShiftOrIsSum(a, t);
    SixBitsUp(a, t, m, d);
  }

  lemma SixBitsUp(a: nat, t: nat, m: nat, d: nat)
    requires m > 0 && t < 64 && m * d == 0x400_0000
    ensures (a * 64 % WORD32 + t) % (64 * m) == a % m * 64 + t
  {
    var q, high := a / m, a / 0x400_0000;
    DivMod(a * 64, WORD32, high, a % 0x400_0000 * 64);
    assert m * (d * high) == (m * d) * high;
    assert m * (q - d * high) == m * q - m * (d * high);
    var e := q - d * high;
    assert a % 0x400_0000 == m * e + a % m;
    assert 64 * (m * e) == (64 * m) * e;
    DivMod(a * 64 % WORD32 + t, 64 * m, e, a % m * 64 + t);
  }

  lemma LastIsNotOnes(k: nat, a: Word, t: TypeNr)
    requires 0 < k <= 5
    ensures Low(k, AddToTypeToken(a, t)) != Low(k, Empty)
  {
    LowStep(k, a, t);
    OnesAreLow(k);
    DivMod(Low(k - 1, a) * 64 + t, 64, Low(k - 1, a), t);
  }

  lemma OnesAreLow(k: nat)
    requires 0 < k <= 5
    ensures Low(k, Empty) % 64 == 63
  {
    LastSixBits(Empty, LowBits(k - 1));
  }

  lemma LastSixBits(a: nat, m: nat)
    requires m > 0
    ensures a % (64 * m) % 64 == a % 64
  {
    var q, r := a / (64 * m), a % (64 * m);
    assert (64 * m) * q == 64 * (m * q);
    DivMod(a, 64, m * q + r / 64, r % 64);
  }

  lemma LowZero(a: Word, t: TypeNr)
    ensures Low(0, AddToTypeToken(a, t)) == t % 4
    ensures Low(0, Empty) == 3
  {
    ShiftOrIsSum(a, t);
    var c := a % 0x400_0000;
    DivMod(a * 64, WORD32, a / 0x400_0000, c * 64);
    DivMod(c * 64 + t, 4, c * 16 + t / 4, t % 4);
  }

  lemma LowAll(a: Word)
    ensures Low(5, a) == a
  {
    assert LowBits(2) == 16384 && LowBits(4) == 67108864 && LowBits(5) == 0x1_0000_0000;
  }

  // ----- Lists seen from the end

  lemma {:induction false} TokenFromLast(r: Word, ts: seq<TypeNr>, t: TypeNr)
    ensures TokenFrom(r, ts + [t]) == AddToTypeToken(TokenFrom(r, ts), t)
    decreases |ts|
  {
    if ts == [] {
      assert (ts + [t])[1..] == [];
    } else {
      assert (ts + [t])[1..] == ts[1..] + [t];
      TokenFromLast(AddToTypeToken(r, ts[0]), ts[1..], t);
    }
  }

  lemma SplitLast(ts: seq<TypeNr>)
    requires ts != []
    ensures Token(ts) == AddToTypeToken(Token(ts[..|ts| - 1]), ts[|ts| - 1])
  {
    assert ts == ts[..|ts| - 1] + [ts[|ts| - 1]];
    TokenFromLast(Empty, ts[..|ts| - 1], ts[|ts| - 1]);
  }

  lemma LastKStep(ts: seq<TypeNr>, k: nat)
    requires ts != [] && k > 0
    ensures LastK(ts, k) == LastK(ts[..|ts| - 1], k - 1) + [ts[|ts| - 1]]
    ensures NextBits(ts, k) == NextBits(ts[..|ts| - 1], k - 1)
  {
  }

  lemma {:induction false} LowBitsAgree(ts: seq<TypeNr>, us: seq<TypeNr>, k: nat)
    requires k <= 5
    ensures Low(k, Token(ts)) == Low(k, Token(us))
            <==> LastK(ts, k) == LastK(us, k) && NextBits(ts, k) == NextBits(us, k)
    decreases k
  {
    if k == 0 {
      LowBitsOfNothing(ts);
      LowBitsOfNothing(us);
      assert LastK(ts, 0) == LastK(us, 0);
    } else if ts == [] || us == [] {
      OneEmpty(ts, k);
      OneEmpty(us, k);
    } else {
      LowBitsAgree(ts[..|ts| - 1], us[..|us| - 1], k - 1);
      BothLonger(ts, us, k);
    }
  }

  lemma OneEmpty(ts: seq<TypeNr>, k: nat)
    requires 0 < k <= 5
    ensures Low(k, Token(ts)) == Low(k, Token([])) <==> ts == []
  {
    if ts != [] {
      SplitLast(ts);
      LastIsNotOnes(k, Token(ts[..|ts| - 1]), ts[|ts| - 1]);
    }
  }

  lemma BothLonger(ts: seq<TypeNr>, us: seq<TypeNr>, k: nat)
    requires 0 < k <= 5 && ts != [] && us != []
    requires var m, n := ts[..|ts| - 1], us[..|us| - 1];
             Low(k - 1, Token(m)) == Low(k - 1, Token(n))
             <==> LastK(m, k - 1) == LastK(n, k - 1) && NextBits(m, k - 1) == NextBits(n, k - 1)
    ensures Low(k, Token(ts)) == Low(k, Token(us))
            <==> LastK(ts, k) == LastK(us, k) && NextBits(ts, k) == NextBits(us, k)
  {
    var t, u := ts[|ts| - 1], us[|us| - 1];
    var m, n := ts[..|ts| - 1], us[..|us| - 1];
    SplitLast(ts);
    SplitLast(us);
    LowStep(k, Token(m), t);
    LowStep(k, Token(n), u);
    LastKStep(ts, k);
    LastKStep(us, k);
    AppendedEqual(LastK(m, k - 1), t, LastK(n, k - 1), u);
  }

  lemma LowBitsOfNothing(ts: seq<TypeNr>)
    ensures Low(0, Token(ts)) == NextBits(ts, 0)
  {
    if ts != [] {
      SplitLast(ts);
      LowZero(Token(ts[..|ts| - 1]), ts[|ts| - 1]);
    }
  }

  lemma AppendedEqual(a: seq<TypeNr>, s: TypeNr, b: seq<TypeNr>, t: TypeNr)
    ensures a + [s] == b + [t] <==> a == b && s == t
  {
    if a + [s] == b + [t] {
      assert a == (a + [s])[..|a + [s]| - 1];
      assert s == (a + [s])[|a + [s]| - 1] && t == (b + [t])[|b + [t]| - 1];
    }
  }

  // ----- Main results

  /** The token computed at run time, type by type, is the one computed at compile time. */
  lemma RunTimeAgrees(ts: seq<TypeNr>, t: TypeNr)
    ensures AddToTypeToken(Token(ts), t) == Token(ts + [t])
  {
    TokenFromLast(Empty, ts, t);
  }

  /** Exactly when two lists, of any length, share their token. */
  lemma TokensAgreeIff(ts: seq<TypeNr>, us: seq<TypeNr>)
    ensures Token(ts) == Token(us)
            <==> LastFive(ts) == LastFive(us) && SixthBits(ts) == SixthBits(us)
  {
    LowBitsAgree(ts, us, 5);
    LowAll(Token(ts));
    LowAll(Token(us));
  }

  lemma InjectiveUpToFive(ts: seq<TypeNr>, us: seq<TypeNr>)
    requires |ts| <= 5 && |us| <= 5
    ensures Token(ts) == Token(us) <==> ts == us
  {
    TokensAgreeIff(ts, us);
  }

  /** A list of at most four types shares its token with no other list at all: the test for `[t]` is exact. */
  lemma ShortTokensAreUnique(ts: seq<TypeNr>, us: seq<TypeNr>)
    requires |ts| <= 4
    ensures Token(ts) == Token(us) <==> ts == us
  {
    TokensAgreeIff(ts, us);
  }

  /** From five types on every token is shared: putting one suitable type in front changes nothing. */
  lemma FiveIsExact(ts: seq<TypeNr>)
    requires |ts| >= 5
    ensures exists us :: us != ts && Token(us) == Token(ts)
  {
    var us: seq<TypeNr> := [SixthBits(ts)] + LastFive(ts);
    var vs: seq<TypeNr> := [SixthBits(ts) + 4] + LastFive(ts);
    assert LastFive(us) == LastFive(ts) == LastFive(vs);
    assert SixthBits(us) == SixthBits(ts) == SixthBits(vs);
    TokensAgreeIff(us, ts);
    TokensAgreeIff(vs, ts);
    assert us[0] != vs[0];
  }
}
