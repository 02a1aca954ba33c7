/**
 The base64 encoder that carries the command line to remote hosts. Its counterpart here is a
 strict decoder in the terms of section 4 of RFC 4648.
 */
module Base64 {
  import opened Wrappers

  type Byte = n: nat | n < 256
  type Sextet = n: nat | n < 64

  // ----- The encoder

  /** The characters of `base64_tbl`; DigitIsTableEntry compares them with the literal. */
  function Digit(n: Sextet): char {
    if n < 26 then 'A' + n as char
    else if n < 52 then 'a' + (n - 26) as char
    else if n < 62 then '0' + (n - 52) as char
    else if n == 62 then '+'
    else '/'
  }

  lemma DigitIsTableEntry(n: Sextet)
    ensures n < 26 ==> Digit(n) == "ABCDEFGHIJKLMNOPQRSTUVWXYZ"[n]
    ensures 26 <= n < 52 ==> Digit(n) == "abcdefghijklmnopqrstuvwxyz"[n - 26]
    ensures 52 <= n ==> Digit(n) == "0123456789+/"[n - 52]
  {
  }

  /** Three bytes as four digits; the masks and shifts of the source, as remainders and quotients. */
  function Consume(a: Byte, b: Byte, c: Byte): (r: string)
    ensures |r| == 4
  {
    [Digit(a / 4), Digit(a % 4 * 16 + b / 16), Digit(b % 16 * 4 + c / 64), Digit(c % 64)]
  }

  /** The masks and shifts of the source, on bytes, are the quotients and remainders of Consume. */
  lemma MasksAndShifts(a: bv8, b: bv8, c: bv8)
    ensures ((a & 0xfc) >> 2) as int == a as int / 4
    ensures (((a & 0x03) << 4) + ((b & 0xf0) >> 4)) as int == a as int % 4 * 16 + b as int / 16
    ensures (((b & 0x0f) << 2) + ((c & 0xc0) >> 6)) as int == b as int % 16 * 4 + c as int / 64
    ensures (c & 0x3f) as int == c as int % 64
  {
    FirstTwo(a, b);
    LastTwo(b, c);
    SumOfSmall((a & 0x03) << 4, (b & 0xf0) >> 4);
    SumOfSmall((b & 0x0f) << 2, (c & 0xc0) >> 6);
  }

  lemma FirstTwo(a: bv8, b: bv8)
    ensures ((a & 0x03) << 4) as int == a as int % 4 * 16 && ((b & 0xf0) >> 4) as int == b as int / 16
  {
  }

  lemma LastTwo(b: bv8, c: bv8)
    ensures ((b & 0x0f) << 2) as int == b as int % 16 * 4 && ((c & 0xc0) >> 6) as int == c as int / 64
  {
  }

  lemma SumOfSmall(x: bv8, y: bv8)
    requires x < 64 && y < 16
    ensures (x + y) as int == x as int + y as int
  {
  }

  /** The last one or two bytes, copied over three zeros. */
  function Fill(x: seq<Byte>): (r: seq<Byte>)
    requires |x| < 3
    ensures |r| == 3
  {
    x + [0, 0, 0][|x|..]
  }

  function Pads(n: nat): (r: string)
    ensures |r| == n
  {
    seq(n, _ => '=')
  }

  function Encode(x: seq<Byte>): string {
    if x == [] then ""
    else if |x| < 3 then EncodeRest(x)
    else Consume(x[0], x[1], x[2]) + Encode(x[3..])
  }

  function EncodeRest(x: seq<Byte>): (r: string)
    requires 0 < |x| < 3
    ensures |r| == 4
  {
    var c := Fill(x);
    Consume(c[0], c[1], c[2])[..|x| + 1] + Pads(3 - |x|)
  }

  method EncodeBase64(x: seq<Byte>) returns (result: string)
    ensures result == Encode(x)
  {
    result := "";
    var i: nat := 0;
    ghost var chunks := 0;
    while |x| - i >= 3
      invariant i == 3 * chunks && i <= |x|
      invariant Encode(x) == result + Encode(x[i..])
    {
      EncodeStep(result, x, i);
      result := result + Consume(x[i], x[i + 1], x[i + 2]);
      i := i + 3;
      chunks := chunks + 1;
    }
    if i != |x| {
      Remainder(|x|, chunks);
      result := AppendRest(result, x[i..], 3 - |x| % 3);
    }
  }

  method AppendRest(head: string, rest: seq<Byte>, pad: nat) returns (result: string)
    requires 0 < |rest| < 3 && pad == 3 - |rest|
    ensures result == head + EncodeRest(rest)
  {
    var cbuf := Fill(rest);
    var chunk := Consume(cbuf[0], cbuf[1], cbuf[2]);
    result := OverrideTail(head + chunk, pad);
    DropTail(head, chunk, pad);
  }

  lemma Remainder(n: nat, k: nat)
    requires 3 * k <= n < 3 * k + 3
    ensures n % 3 == n - 3 * k
  {
  }

  lemma DropTail(head: string, chunk: string, n: nat)
    requires n <= |chunk|
    ensures (head + chunk)[..|head + chunk| - n] == head + chunk[..|chunk| - n]
  {
  }

  /** The last `n` characters are garbage. */
  method OverrideTail(s: string, n: nat) returns (r: string)
    requires n <= |s|
    ensures r == s[..|s| - n] + Pads(n)
  {
    r := s;
    var j := |s| - n;
    while j < |r|
      invariant |s| - n <= j <= |r| == |s|
      invariant r == s[..|s| - n] + Pads(j - (|s| - n)) + s[j..]
    {
      PadOneMore(s, n, j - (|s| - n));
      r := r[j := '='];
      j := j + 1;
    }
    assert s[j..] == "";
  }

  lemma PadOneMore(s: string, n: nat, k: nat)
    requires k < n <= |s|
    ensures (s[..|s| - n] + Pads(k) + s[|s| - n + k..])[|s| - n + k := '=']
            == s[..|s| - n] + Pads(k + 1) + s[|s| - n + k + 1..]
  {
  }

  lemma EncodeStep(result: string, x: seq<Byte>, i: nat)
    requires i + 3 <= |x|
    ensures result + Encode(x[i..]) == result + Consume(x[i], x[i + 1], x[i + 2]) + Encode(x[i + 3..])
  {
    assert x[i..][3..] == x[i + 3..];
  }

  // ----- A decoder in the terms of the standard

  function Value(c: char): Option<Sextet> {
    if 'A' <= c <= 'Z' then Some(c as int - 'A' as int)
    else if 'a' <= c <= 'z' then Some(c as int - 'a' as int + 26)
    else if '0' <= c <= '9' then Some(c as int - '0' as int + 52)
    else if c == '+' then Some(62)
    else if c == '/' then Some(63)
    else None
  }

  /** Four digits as a 24-bit group, most significant first; `=` stands for zero bits. */
  function Group(s: string): Option<nat>
    requires |s| == 4
  {
    var p, q := Value(s[0]), Value(s[1]);
    var u: Option<Sextet> := if s[2] == '=' then Some(0) else Value(s[2]);
    var v: Option<Sextet> := if s[3] == '=' then Some(0) else Value(s[3]);
    if p.None? || q.None? || u.None? || v.None? then None
    else Some(p.value * 0x4_0000 + q.value * 0x1000 + u.value * 0x40 + v.value)
  }

  function BytesOf(group: nat): (r: seq<Byte>)
    ensures |r| == 3
  {
    [group / 0x1_0000 % 256, group / 0x100 % 256, group % 256]
  }

  /** Padding may only end the text, and the bits it drops are zero. */
  function Decode(s: string): Option<seq<Byte>> {
    if s == "" then Some([])
    else if |s| < 4 then None
    else
      match Group(s[..4])
      case None => None
      case Some(group) =>
        if s[2] == '=' then
          if |s| == 4 && s[3] == '=' && group % 0x1_0000 == 0 then Some(BytesOf(group)[..1]) else None
        else if s[3] == '=' then
          if |s| == 4 && group % 0x100 == 0 then Some(BytesOf(group)[..2]) else None
        else
          match Decode(s[4..])
          case None => None
          case Some(rest) => Some(BytesOf(group) + rest)
  }

  // ----- Digits

  lemma ValueOfDigit(n: Sextet)
    ensures Value(Digit(n)) == Some(n) && Digit(n) != '='
  {
  }

  lemma DigitOfValue(c: char)
    requires Value(c).Some?
    ensures Digit(Value(c).value) == c && c != '='
  {
  }

  lemma GroupOfDigits(p: Sextet, q: Sextet, u: Sextet, v: Sextet)
    ensures Group([Digit(p), Digit(q), Digit(u), Digit(v)]) == Some(p * 0x4_0000 + q * 0x1000 + u * 0x40 + v)
  {
    ValueOfDigit(p);
    ValueOfDigit(q);
    ValueOfDigit(u);
    ValueOfDigit(v);
  }

  // ----- One group

  /** The four digits of three bytes are those bytes as one number, most significant first. */
  lemma GroupOfBytes(a: Byte, b: Byte, c: Byte)
    ensures Group(Consume(a, b, c)) == Some(a * 0x1_0000 + b * 0x100 + c)
  {
    GroupOfDigits(a / 4, a % 4 * 16 + b / 16, b % 16 * 4 + c / 64, c % 64);
  }

  lemma BytesOfGroup(a: Byte, b: Byte, c: Byte)
    ensures var g := a * 0x1_0000 + b * 0x100 + c;
            BytesOf(g) == [a, b, c] && g % 0x1_0000 == b * 0x100 + c && g % 0x100 == c
  {
    var g := a * 0x1_0000 + b * 0x100 + c;
    assert g / 0x1_0000 == a && g % 0x1_0000 == b * 0x100 + c;
    var h := a * 0x100 + b;
    assert g == h * 0x100 + c;
    assert g / 0x100 == h && g % 0x100 == c;
    assert h % 0x100 == b;
  }

  lemma DigitsAreNotPadding(a: Byte, b: Byte, c: Byte)
    ensures forall i :: 0 <= i < 4 ==> Consume(a, b, c)[i] != '='
  {
    ValueOfDigit(a / 4);
    ValueOfDigit(a % 4 * 16 + b / 16);
    ValueOfDigit(b % 16 * 4 + c / 64);
    ValueOfDigit(c % 64);
  }

  /** Padding reads as the zero bits of the filled bytes. */
  lemma PaddedGroup(a: Byte, b: Byte)
    ensures Group(Consume(a, b, 0)[..3] + "=") == Group(Consume(a, b, 0))
    ensures Group(Consume(a, 0, 0)[..2] + "==") == Group(Consume(a, 0, 0))
  {
    ValueOfDigit(0);
  }

  /** Any four sextets are the digits of the three bytes they make up. */
  lemma DigitsOfSextets(p: Sextet, q: Sextet, u: Sextet, v: Sextet) returns (a: Byte, b: Byte, c: Byte)
    ensures p * 0x4_0000 + q * 0x1000 + u * 0x40 + v == a * 0x1_0000 + b * 0x100 + c
    ensures Consume(a, b, c) == [Digit(p), Digit(q), Digit(u), Digit(v)]
  {
    a, b, c := p * 4 + q / 16, q % 16 * 16 + u / 4, u % 4 * 64 + v;
    assert a / 4 == p && a % 4 == q / 16 && b / 16 == q % 16;
    assert b % 16 == u / 4 && c / 64 == u % 4 && c % 64 == v;
  }

  predicate IsDigit(c: char, n: Sextet) {
    Digit(n) == c && c != '='
  }

  function Or0(c: char): Sextet {
    if Value(c).Some? then Value(c).value else 0
  }

  lemma GroupAsSextets(s: string)
    requires |s| == 4 && Group(s).Some?
    ensures Group(s).value == Or0(s[0]) * 0x4_0000 + Or0(s[1]) * 0x1000 + Or0(s[2]) * 0x40 + Or0(s[3])
    ensures IsDigit(s[0], Or0(s[0])) && IsDigit(s[1], Or0(s[1]))
    ensures s[2] != '=' ==> IsDigit(s[2], Or0(s[2]))
    ensures s[3] != '=' ==> IsDigit(s[3], Or0(s[3]))
  {
    DigitOfValue(s[0]);
    DigitOfValue(s[1]);
    if s[2] != '=' { DigitOfValue(s[2]); }
    if s[3] != '=' { DigitOfValue(s[3]); }
  }

  /** A group that decodes is made of the digits of its bytes. */
  lemma DigitsOfGroup(s: string) returns (a: Byte, b: Byte, c: Byte)
    requires |s| == 4 && Group(s).Some?
    ensures BytesOf(Group(s).value) == [a, b, c]
    ensures Group(s).value % 0x1_0000 == b * 0x100 + c && Group(s).value % 0x100 == c
    ensures s[0] != '=' && s[1] != '='
    ensures forall i :: 0 <= i < 4 && s[i] != '=' ==> Consume(a, b, c)[i] == s[i]
  {
    GroupAsSextets(s);
    var p, q, u, v := Or0(s[0]), Or0(s[1]), Or0(s[2]), Or0(s[3]);
    a, b, c := DigitsOfSextets(p, q, u, v);
    BytesOfGroup(a, b, c);
    assert Consume(a, b, c)[0] == Digit(p) && Consume(a, b, c)[1] == Digit(q);
    assert Consume(a, b, c)[2] == Digit(u) && Consume(a, b, c)[3] == Digit(v);
  }

  // ----- Main results

  function PadCount(n: nat): nat {
    (3 - n % 3) % 3
  }

  /** Four digits for every three bytes begun; exactly the last ones are padding. */
  lemma {:induction false} LengthAndPadding(x: seq<Byte>)
    ensures |Encode(x)| == (|x| + 2) / 3 * 4
    ensures PaddedAtEnd(Encode(x), PadCount(|x|))
    decreases |x|
  {
    if |x| >= 3 {
      DigitsAreNotPadding(x[0], x[1], x[2]);
      LengthAndPadding(x[3..]);
      ThreeMore(|x|);
      PrependDigits(Consume(x[0], x[1], x[2]), Encode(x[3..]), PadCount(|x|));
    } else if x != [] {
      PaddingOfRest(x);
    }
  }

  predicate PaddedAtEnd(s: string, pad: nat) {
    pad <= |s| && forall i :: 0 <= i < |s| ==> (s[i] == '=' <==> i >= |s| - pad)
  }

  lemma PrependDigits(digits: string, s: string, pad: nat)
    requires PaddedAtEnd(s, pad)
    requires forall i :: 0 <= i < |digits| ==> digits[i] != '='
    ensures PaddedAtEnd(digits + s, pad)
  {
  }

  lemma ThreeMore(n: nat)
    requires n >= 3
    ensures PadCount(n) == PadCount(n - 3) && (n + 2) / 3 == (n - 1) / 3 + 1
  {
  }

  lemma PaddingOfRest(x: seq<Byte>)
    requires 0 < |x| < 3
    ensures PaddedAtEnd(EncodeRest(x), 3 - |x|)
  {
    var c := Fill(x);
    DigitsAreNotPadding(c[0], c[1], c[2]);
  }

  lemma {:induction false} DecodeOfEncode(x: seq<Byte>)
    ensures Decode(Encode(x)) == Some(x)
    decreases |x|
  {
    if |x| >= 3 {
      var s, rest := Consume(x[0], x[1], x[2]), Encode(x[3..]);
      DecodeOfEncode(x[3..]);
      GroupOfBytes(x[0], x[1], x[2]);
      BytesOfGroup(x[0], x[1], x[2]);
      DigitsAreNotPadding(x[0], x[1], x[2]);
      assert (s + rest)[..4] == s && (s + rest)[4..] == rest;
      assert [x[0], x[1], x[2]] + x[3..] == x;
    } else if x != [] {
      DecodeOfRest(x);
    }
  }

  lemma DecodeOfRest(x: seq<Byte>)
    requires 1 <= |x| <= 2
    ensures Decode(EncodeRest(x)) == Some(x)
  {
    var s := EncodeRest(x);
    assert s[..4] == s;
    PaddingOfRest(x);
    if |x| == 1 {
      assert x == [x[0]];
      DecodeOfOne(x[0], s);
    } else {
      assert x == [x[0], x[1]];
      DecodeOfTwo(x[0], x[1], s);
    }
  }

  lemma DecodeOfOne(a: Byte, s: string)
    requires s == EncodeRest([a]) && s[..4] == s && PaddedAtEnd(s, 2)
    ensures Decode(s) == Some([a])
  {
    GroupOfBytes(a, 0, 0);
    BytesOfGroup(a, 0, 0);
    PaddedGroup(a, 0);
    assert Pads(2) == "==";
    assert [a, 0, 0][..1] == [a];
  }

  lemma DecodeOfTwo(a: Byte, b: Byte, s: string)
    requires s == EncodeRest([a, b]) && s[..4] == s && PaddedAtEnd(s, 1)
    ensures Decode(s) == Some([a, b])
  {
    GroupOfBytes(a, b, 0);
    BytesOfGroup(a, b, 0);
    PaddedGroup(a, b);
    assert Pads(1) == "=";
    assert [a, b, 0][..2] == [a, b];
  }

  lemma {:induction false} EncodeOfDecode(s: string)
    requires Decode(s).Some?
    ensures Encode(Decode(s).value) == s
    decreases |s|
  {
    if s != "" {
      if s[2] == '=' || s[3] == '=' {
        EncodeOfPadded(s);
      } else {
        EncodeOfDecode(s[4..]);
        EncodeOfFull(s[..4], Decode(s[4..]).value);
        assert s == s[..4] + s[4..];
      }
    }
  }

  lemma EncodeOfFull(s: string, rest: seq<Byte>)
    requires |s| == 4 && Group(s).Some? && s[2] != '=' && s[3] != '='
    ensures Encode(BytesOf(Group(s).value) + rest) == s + Encode(rest)
  {
    var a, b, c := DigitsOfGroup(s);
    assert Consume(a, b, c) == s;
    EncodeOneMore(a, b, c, rest);
  }

  lemma EncodeOneMore(a: Byte, b: Byte, c: Byte, rest: seq<Byte>)
    ensures Encode([a, b, c] + rest) == Consume(a, b, c) + Encode(rest)
  {
    assert ([a, b, c] + rest)[3..] == rest;
  }

  lemma EncodeOfPadded(s: string)
    requires Decode(s).Some? && s != "" && (s[2] == '=' || s[3] == '=')
    ensures EncodeRest(Decode(s).value) == s && 0 < |Decode(s).value| < 3
  {
    assert s[..4] == s;
    var a, b, c := DigitsOfGroup(s);
    var x := Decode(s).value;
    if s[2] == '=' {
      assert b == 0 && c == 0 && x == [a];
      assert Pads(2) == "==";
      assert Consume(a, 0, 0)[..2] == s[..2];
    } else {
      assert c == 0 && x == [a, b];
      assert Pads(1) == "=";
      assert Consume(a, b, 0)[..3] == s[..3];
    }
  }

  /** The encoding is the one and only text that decodes to the bytes. */
  lemma RoundTrip(x: seq<Byte>, s: string)
    ensures Decode(s) == Some(x) <==> s == Encode(x)
  {
    DecodeOfEncode(x);
    if Decode(s) == Some(x) { EncodeOfDecode(s); }
  }
}
