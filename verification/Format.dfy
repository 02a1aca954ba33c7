/**
 The format of the serializer: every encoding is made of unsigned integers in network byte order and
 variable-byte lengths.
 */
module Format {
  import opened Wrappers
  import opened Serializer
  import V = Varbyte

  // ----- Numbers

  /** A boolean is the 8-bit unsigned integer 0 or 1; reading takes any other byte for true as well. */
  lemma BoolIsByte(b: bool, c: Byte, more: seq<Byte>)
    ensures Pow256(1) == 256
    ensures Encode(Bool, BoolV(b)) == Encode(Int(1, false), IntV(if b then 1 else 0))
    ensures Decode(Bool, [c] + more) == Got(BoolV(c != 0), more)
  {
    assert Pow256(1) == 256;
    var w := if b then 1 else 0;
    assert BigEndian(w, 1) == BigEndian(0, 0) + [w];
  }

  /** A negative number is sent as the unsigned number that is larger by two to the width. */
  lemma NegativeIsTwosComplement(n: int, size: nat)
    requires size in {1, 2, 4, 8} && InRange(n, size, true)
    ensures var w := if n < 0 then n + Pow256(size) else n;
            InRange(w, size, false) && Encode(Int(size, true), IntV(n)) == Encode(Int(size, false), IntV(w))
  {
  }

  // ----- Composite values

  /** No field, no bytes; one field, the bytes of that field. */
  lemma SmallTuples(s: Schema, v: Value)
    requires WellTyped(s, v)
    ensures Encode(Tuple([]), ListV([])) == [] && WellTyped(Tuple([s]), ListV([v]))
    ensures Encode(Tuple([s]), ListV([v])) == Encode(s, v)
  {
    assert [s][1..] == [] && [v][1..] == [];
    assert Encode(s, v) + [] == Encode(s, v);
  }

  /** The fields of a tuple follow each other in order. */
  lemma {:induction false} TuplesFollowEachOther(fs: seq<Schema>, vs: seq<Value>, gs: seq<Schema>, ws: seq<Value>)
    requires FieldsTyped(fs, vs) && FieldsTyped(gs, ws)
    ensures FieldsTyped(fs + gs, vs + ws)
    ensures EncodeFields(fs + gs, vs + ws) == EncodeFields(fs, vs) + EncodeFields(gs, ws)
    decreases |fs|
  {
    if fs == [] {
      assert fs + gs == gs && vs + ws == ws;
    } else {
      assert (fs + gs)[1..] == fs[1..] + gs && (vs + ws)[1..] == vs[1..] + ws;
      TuplesFollowEachOther(fs[1..], vs[1..], gs, ws);
      Regroup(Encode(fs[0], vs[0]), EncodeFields(fs[1..], vs[1..]), EncodeFields(gs, ws));
    }
  }

  function Copies(s: Schema, n: nat): (r: seq<Schema>)
    ensures |r| == n
  {
    if n == 0 then [] else [s] + Copies(s, n - 1)
  }

  /** An array is the tuple of its elements. */
  lemma {:induction false} ArrayIsTuple(elem: Schema, vs: seq<Value>)
    requires AllTyped(elem, vs)
    ensures FieldsTyped(Copies(elem, |vs|), vs)
    ensures EncodeFields(Copies(elem, |vs|), vs) == EncodeAll(elem, vs)
    ensures WellTyped(Array(elem, |vs|), ListV(vs)) && WellTyped(Tuple(Copies(elem, |vs|)), ListV(vs))
    ensures Encode(Array(elem, |vs|), ListV(vs)) == Encode(Tuple(Copies(elem, |vs|)), ListV(vs))
    decreases |vs|
  {
    if vs != [] {
      ArrayIsTuple(elem, vs[1..]);
      assert Copies(elem, |vs|)[1..] == Copies(elem, |vs| - 1);
    }
  }

  /** A sequence is its length and the array of its elements. */
  lemma SequenceIsLengthAndArray(elem: Schema, vs: seq<Value>)
    requires WellTyped(Sequence(elem), ListV(vs))
    ensures WellTyped(Array(elem, |vs|), ListV(vs))
    ensures Encode(Sequence(elem), ListV(vs)) == V.Encode(|vs|) + Encode(Array(elem, |vs|), ListV(vs))
  {
  }

  function AsNumbers(bs: seq<Byte>): (vs: seq<Value>)
    ensures |vs| == |bs|
  {
    if bs == [] then [] else [IntV(bs[0])] + AsNumbers(bs[1..])
  }

  lemma {:induction false} BytesAsNumbers(bs: seq<Byte>)
    ensures AllTyped(Int(1, false), AsNumbers(bs)) && EncodeAll(Int(1, false), AsNumbers(bs)) == bs
    decreases |bs|
  {
    assert Pow256(0) == 1 && Pow256(1) == 256;
    if bs != [] {
      BytesAsNumbers(bs[1..]);
      assert AsNumbers(bs)[1..] == AsNumbers(bs[1..]);
      assert BigEndian(bs[0], 1) == BigEndian(0, 0) + [bs[0]] == [bs[0]];
      assert bs == [bs[0]] + bs[1..];
    }
  }

  /** The short cut for strings and other sequences of bytes gives what the loop over their bytes gives. */
  lemma StringIsByteSequence(bs: seq<Byte>)
    requires |bs| < V.WORD64
    ensures WellTyped(Sequence(Int(1, false)), ListV(AsNumbers(bs)))
    ensures Encode(Str, StrV(bs)) == Encode(Sequence(Int(1, false)), ListV(AsNumbers(bs)))
  {
    BytesAsNumbers(bs);
  }

  /** The header of an object is its type number, and its name if the type has no number. */
  lemma HeaderIsTuple(typenr: nat, name: seq<Byte>)
    requires WellTyped(ObjectHeader, HeaderV(typenr, name))
    ensures var fs := if typenr == 0 then [Int(2, false), Str] else [Int(2, false)];
            var vs := if typenr == 0 then [IntV(0), StrV(name)] else [IntV(typenr)];
            && WellTyped(Tuple(fs), ListV(vs))
            && Encode(ObjectHeader, HeaderV(typenr, name)) == Encode(Tuple(fs), ListV(vs))
  {
    assert Pow256(1) == 256 && Pow256(2) == 65536;
    SmallTuples(Int(2, false), IntV(typenr));
    if typenr == 0 {
      SmallTuples(Str, StrV(name));
      TuplesFollowEachOther([Int(2, false)], [IntV(0)], [Str], [StrV(name)]);
    } else {
      assert BigEndian(typenr, 2) + [] == BigEndian(typenr, 2);
    }
  }
}
