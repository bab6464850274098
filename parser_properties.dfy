// What the cursor's readers promise, stated over their specifications (isolate/parser.go):
// the limits flags, the optional reference marker, the heap-type checks, the raw-byte
// value type, names, constant expressions and Expect.

module ParserProperties {
  import opened Base
  import opened Leb128
  import opened IsolateTypes
  import opened IsolateParser

  /** A byte without the continuation bit is a whole LEB128 number on its own. */
  lemma OneByteDecoding(s: seq<byte>)
    requires |s| >= 1 && s[0] < 128
    ensures UnsignedDecoding(s) == Decoded(s[0], 1, false)
    ensures SignedDecoding(s) == Decoded(if s[0] >= 64 then s[0] as int - 128 else s[0], 1, false)
  {
    assert Pow128(1) == 128;
  }

  // ---------------------------------------------------------------------------
  // Names
  // ---------------------------------------------------------------------------

  /** A name is a u32 length and that many bytes; only the bytes are recorded, never the length. */
  lemma ReadNameLayout(d: seq<byte>, p: nat, at: int, thing: Thing)
    requires p <= |d|
    ensures var len := UnsignedDecoding(d[p..]);
      var o := ReadNameSpec(d, p, at, thing);
      var q := p + len.n;
      var n := len.value % U32_LIMIT;
      (len.overflow ==> o.result == Err(At(thing, at, Overflow)) && o.logged == []) &&
      (!len.overflow ==> (o.result.Ok? <==> q + n <= |d|)) &&
      (!len.overflow && q + n > |d| ==> o.result == Err(At(thing, at + len.n, if q == |d| then EOF else UnexpectedEOF))) &&
      (o.result.Ok? ==> o.result.value == d[q..q + n] && o.logged == d[q..q + n] && o.pos == q + n)
  {
    assert d[p..][..0] == [];
  }

  // ---------------------------------------------------------------------------
  // The type grammar
  // ---------------------------------------------------------------------------

  /** ReadLimits always reads min, reads max iff flag bit 0 is set, selects 64-bit addresses
      iff flag bit 2 is set, and records only the flags byte. */
  lemma ReadLimitsFlags(d: seq<byte>, p: nat, at: int)
    requires p <= |d|
    ensures p == |d| ==> ReadLimitsSpec(d, p, at).result == Err(At(LimitsFlags, at, EOF))
    ensures p < |d| ==>
      var o := ReadLimitsSpec(d, p, at);
      var f := d[p];
      var min := UnsignedDecoding(d[p + 1..]);
      var q := p + 1 + min.n;
      o.logged == [f] &&
      (min.overflow ==> o.result == Err(At(LimitsMin, at + 1, Overflow))) &&
      (!min.overflow && f % 2 == 0 ==> o.result.Ok? && o.pos == q) &&
      (o.result.Ok? ==>
        o.result.value.min == min.value &&
        (o.result.value.hasMax <==> f % 2 == 1) &&
        (o.result.value.at == AtI64 <==> (f / 4) % 2 == 1) &&
        (!o.result.value.hasMax ==> o.result.value.max == 0))
    ensures p < |d| && !UnsignedDecoding(d[p + 1..]).overflow && d[p] % 2 == 1 ==>
      var o := ReadLimitsSpec(d, p, at);
      var min := UnsignedDecoding(d[p + 1..]);
      var q := p + 1 + min.n;
      var max := UnsignedDecoding(d[q..]);
      (max.overflow ==> o.result == Err(At(LimitsMax, at + 1 + min.n, Overflow))) &&
      (!max.overflow ==> o.result.Ok? && o.result.value.max == max.value && o.pos == q + max.n)
  {
    hide UnsignedDecoding;
  }

  /** ReadHeapType: the s64 must not overflow, a negative value must take exactly one byte,
      and the value must be a heap type; every failure is reported at the start offset. */
  lemma ReadHeapTypeCases(d: seq<byte>, p: nat, at: int, thing: Thing)
    requires p <= |d|
    ensures var s := SignedDecoding(d[p..]);
      var o := ReadHeapTypeSpec(d, p, at, thing);
      o.pos == p + s.n &&
      (s.overflow ==> o.result == Err(At(thing, at, Overflow))) &&
      (!s.overflow && s.value < 0 && s.n != 1 ==> o.result == Err(At(thing, at, InvalidAbstractHeapType))) &&
      (!s.overflow && (s.value >= 0 || s.n == 1) && !IsHeapType(s.value) ==>
        o.result == Err(At(thing, at, InvalidHeapType))) &&
      (o.result.Ok? <==> !s.overflow && (s.value >= 0 || s.n == 1) && IsHeapType(s.value)) &&
      (o.result.Ok? ==> o.result.value == s.value)
  {
  }

  /** A one-byte heap type: 0x69..0x74 are the abstract heap types, 0x01..0x3F concrete type
      indices; 0x00 is rejected, since a concrete heap type must be positive. */
  lemma ReadHeapTypeOneByte(d: seq<byte>, p: nat, at: int, thing: Thing)
    requires p < |d| && d[p] < 128
    ensures var o := ReadHeapTypeSpec(d, p, at, thing);
      o.pos == p + 1 &&
      (o.result.Ok? <==> 0x69 <= d[p] <= 0x74 || 1 <= d[p] < 64) &&
      (o.result.Ok? ==> o.result.value == if d[p] >= 64 then d[p] as int - 128 else d[p]) &&
      (d[p] == 0 ==> o.result == Err(At(thing, at, InvalidHeapType)))
  {
    OneByteDecoding(d[p..]);
  }

  /** funcref written in two bytes (0xF0 0x7F, the value -16) is refused as an abstract heap type. */
  lemma ReadHeapTypeTwoByteNegative(d: seq<byte>, p: nat, at: int, thing: Thing)
    requires p + 2 <= |d| && d[p] == 0xF0 && d[p + 1] == 0x7F
    ensures ReadHeapTypeSpec(d, p, at, thing).result == Err(At(thing, at, InvalidAbstractHeapType))
  {
    var s := d[p..];
    assert Pow128(1) == 128 && Pow128(2) == 16384;
    assert SignedFrom(s, 1, 0x70) == Decoded(-16, 2, false);
  }

  /** ReadRefType takes a marker byte only when it is 0x64 or 0x63; nullable iff the marker is
      0x63, so false without a marker; the heap type follows, read at the offset after the marker. */
  lemma ReadRefTypeMarker(d: seq<byte>, p: nat, at: int, thing: Thing)
    requires p <= |d|
    ensures p == |d| ==> ReadRefTypeSpec(d, p, at, thing).result == Err(At(thing, at, EOF))
    ensures p < |d| ==>
      var marked := d[p] == 0x64 || d[p] == 0x63;
      var q := if marked then p + 1 else p;
      var ht := ReadHeapTypeSpec(d, q, at + (q - p), thing);
      var o := ReadRefTypeSpec(d, p, at, thing);
      o.pos == ht.pos && o.logged == d[p..q] &&
      (o.result.Ok? <==> ht.result.Ok?) &&
      (o.result.Ok? ==> o.result.value == RefType(d[p] == 0x63, ht.result.value)) &&
      (o.result.Err? ==> o.result.error == ht.result.error)
  {
    hide ReadHeapTypeSpec;
  }

  /** ReadValType takes the byte itself, unsigned, as the type code: byte 0 is an invalid
      value type, and every other byte is a nullable reference to the type with that index. */
  lemma ReadValTypeRawByte(d: seq<byte>, p: nat, at: int, thing: Thing)
    requires p <= |d|
    ensures p == |d| ==> ReadValTypeSpec(d, p, at, thing).result == Err(At(thing, at, EOF))
    ensures p < |d| ==>
      var o := ReadValTypeSpec(d, p, at, thing);
      o.pos == p + 1 && o.cur == at + 1 && o.logged == [d[p]] &&
      (d[p] == 0 ==> o.result == Err(At(thing, at, InvalidValType))) &&
      (d[p] != 0 ==> o.result == Ok(ValType(true, 0, RefType(true, d[p]))))
  {
  }

  /** So no value type read is numeric or a vector: i32 (0x7F) reads as a reference to type 127. */
  lemma ReadValTypeNeverNumeric(d: seq<byte>, p: nat, at: int, thing: Thing)
    requires p <= |d|
    ensures var o := ReadValTypeSpec(d, p, at, thing);
      o.result.Ok? ==> o.result.value.IsRef() && !o.result.value.IsNum() && !o.result.value.IsVec()
    ensures p < |d| && d[p] == 0x7F ==>
      ReadValTypeSpec(d, p, at, thing).result == Ok(ValType(true, 0, RefType(true, 127)))
  {
    ReadValTypeRawByte(d, p, at, thing);
  }

  /** A global type is the value-type byte and the mutability byte; only 0x01 is mutable. */
  lemma ReadGlobalTypeLayout(d: seq<byte>, p: nat, at: int, thing: Thing)
    requires p + 2 <= |d| && d[p] != 0
    ensures ReadGlobalTypeSpec(d, p, at, thing) ==
      Outcome(Ok(GlobalType(d[p + 1] == 0x01, ValType(true, 0, RefType(true, d[p])))), p + 2, at + 2, d[p..p + 2])
  {
  }

  /** A tag type is an attribute byte, which is recorded and ignored, then a u32 type index. */
  lemma ReadTagTypeLayout(d: seq<byte>, p: nat, at: int, thing: Thing)
    requires p < |d|
    ensures var o := ReadTagTypeSpec(d, p, at, thing);
      var idx := UnsignedDecoding(d[p + 1..]);
      o.logged == [d[p]] && o.pos == p + 1 + idx.n &&
      (o.result.Ok? <==> !idx.overflow) &&
      (o.result.Ok? ==> o.result.value == idx.value % U32_LIMIT) &&
      (o.result.Err? ==> o.result.error == At(thing, at + 1, Overflow))
  {
  }

  // ---------------------------------------------------------------------------
  // Constant expressions
  // ---------------------------------------------------------------------------

  /** An instruction that lets the loop go on leaves the offset in step with the position. */
  lemma InstrStepTracks(d: seq<byte>, p: nat, at: int, thing: Thing, depth: int)
    requires p <= |d|
    ensures var st := InstrSpec(d, p, at, thing, depth);
      st.more ==> st.o.cur == at + (st.o.pos - p) && |st.o.logged| >= 1 && st.o.logged[0] == d[p]
    ensures var st := InstrSpec(d, p, at, thing, depth);
      !st.more && st.o.result.Ok? ==>
        d[p] == 0x0B && depth == 0 && st.o == Outcome(Ok(()), p + 1, at + 1, [0x0B])
    ensures var st := InstrSpec(d, p, at, thing, depth);
      st.o.result.Err? && st.o.result.error.At? && st.o.result.error.cause.UnknownOpcode? ==>
        var op := st.o.result.error.cause.op;
        !st.more && p < |d| && d[p] == op && op != 0x0B && !KnownExprOpcode(op) &&
        st.o.pos == p + 1 && st.o.result.error == At(thing, at, UnknownOpcode(op))
  {
  }

  /** One pass of the loop, then the rest of it. */
  lemma ExprUnfold(d: seq<byte>, p: nat, at: int, thing: Thing, depth: int)
    requires p <= |d|
    ensures var st := InstrSpec(d, p, at, thing, depth);
      ExprSpec(d, p, at, thing, depth) ==
        if !st.more then st.o else Then(st.o, ExprSpec(d, st.o.pos, st.o.cur, thing, st.depth))
  {
  }

  /** A successful loop ends on an `end` byte, which it took and recorded last, and its offset
      has moved by exactly the bytes taken. */
  lemma {:induction false} ExprSuccess(d: seq<byte>, p: nat, at: int, thing: Thing, depth: int)
    requires p <= |d|
    ensures var o := ExprSpec(d, p, at, thing, depth);
      o.result.Ok? ==>
        p < o.pos && d[o.pos - 1] == 0x0B && o.cur == at + (o.pos - p) &&
        |o.logged| >= 1 && o.logged[|o.logged| - 1] == 0x0B
    decreases |d| - p
  {
    hide InstrSpec, ExprSpec, ReadExprSpec;
    var st := InstrSpec(d, p, at, thing, depth);
    InstrStepTracks(d, p, at, thing, depth);
    ExprUnfold(d, p, at, thing, depth);
    if st.more {
      var rest := ExprSpec(d, st.o.pos, st.o.cur, thing, st.depth);
      ExprSuccess(d, st.o.pos, st.o.cur, thing, st.depth);
      if rest.result.Ok? {
        assert ExprSpec(d, p, at, thing, depth) == Then(st.o, rest);
        assert (st.o.logged + rest.logged)[|st.o.logged| + |rest.logged| - 1] == rest.logged[|rest.logged| - 1];
      }
    }
  }

  /** An unknown opcode fails the loop at that opcode's own offset: the byte just taken. */
  lemma {:induction false} ExprUnknownOpcode(d: seq<byte>, p: nat, at: int, thing: Thing, depth: int)
    requires p <= |d|
    ensures var o := ExprSpec(d, p, at, thing, depth);
      o.result.Err? && o.result.error.At? && o.result.error.cause.UnknownOpcode? ==>
        var op := o.result.error.cause.op;
        p < o.pos && d[o.pos - 1] == op && op != 0x0B && !KnownExprOpcode(op) &&
        o.result.error == At(thing, at + (o.pos - 1 - p), UnknownOpcode(op))
    decreases |d| - p
  {
    hide InstrSpec, ExprSpec, ReadExprSpec, KnownExprOpcode;
    var st := InstrSpec(d, p, at, thing, depth);
    InstrStepTracks(d, p, at, thing, depth);
    ExprUnfold(d, p, at, thing, depth);
    if st.more {
      ExprUnknownOpcode(d, st.o.pos, st.o.cur, thing, st.depth);
      assert ExprSpec(d, p, at, thing, depth) == Then(st.o, ExprSpec(d, st.o.pos, st.o.cur, thing, st.depth));
    }
  }

  /** The depth never rises, so from depth 0 the first `end` opcode finishes the expression. */
  lemma ExprEndAtDepthZero(d: seq<byte>, p: nat, at: int, thing: Thing)
    requires p < |d| && d[p] == 0x0B
    ensures ReadExprSpec(d, p, at, thing) == Outcome(Ok([0x0B]), p + 1, at + 1, [0x0B])
    ensures forall depth :: InstrSpec(d, p, at, thing, depth).depth <= depth
  {
  }

  const IntConstExpr: seq<byte> := [0x41, 0x80, 0x01, 0x6A, 0x0B]
  const FloatConstExpr: seq<byte> := [0x43, 0, 0, 0x80, 0x3F, 0x0B]

  lemma IntConstStep(at: int, thing: Thing)
    ensures InstrSpec(IntConstExpr, 0, at, thing, 0) == InstrStep(Outcome(Ok(()), 3, at + 3, [0x41]), true, 0)
  {
    var e := IntConstExpr;
    assert e[1..] == [0x80, 0x01, 0x6A, 0x0B];
    assert Pow128(1) == 128;
    assert UnsignedDecoding(e[1..]) == Decoded(128, 2, false);
  }

  lemma IntConstRest(at: int, thing: Thing)
    ensures ExprSpec(IntConstExpr, 3, at + 3, thing, 0) == Outcome(Ok(()), 5, at + 5, [0x6A, 0x0B])
  {
    var e := IntConstExpr;
    assert ExprSpec(e, 4, at + 4, thing, 0) == Outcome(Ok(()), 5, at + 5, [0x0B]);
  }

  /** i32.const 128; i32.add; end: the opcodes are recorded, the LEB128 immediate is not. */
  lemma ExprSkipsIntegerImmediate(at: int, thing: Thing)
    ensures ReadExprSpec(IntConstExpr, 0, at, thing) ==
      Outcome(Ok([0x41, 0x6A, 0x0B]), 5, at + 5, [0x41, 0x6A, 0x0B])
  {
    hide InstrSpec, ExprSpec;
    IntConstStep(at, thing);
    IntConstRest(at, thing);
    ExprUnfold(IntConstExpr, 0, at, thing, 0);
    var first: seq<byte> := [0x41];
    assert first + [0x6A, 0x0B] == [0x41, 0x6A, 0x0B];
  }

  lemma FloatConstStep(at: int, thing: Thing)
    ensures InstrSpec(FloatConstExpr, 0, at, thing, 0) ==
      InstrStep(Outcome(Ok(()), 5, at + 5, [0x43, 0, 0, 0x80, 0x3F]), true, 0)
  {
    var e := FloatConstExpr;
    assert e[1..5] == [0, 0, 0x80, 0x3F];
  }

  /** f32.const 1.0; end: the four bytes of a float immediate are recorded with the opcodes. */
  lemma ExprRecordsFloatImmediate(at: int, thing: Thing)
    ensures ReadExprSpec(FloatConstExpr, 0, at, thing) ==
      Outcome(Ok([0x43, 0, 0, 0x80, 0x3F, 0x0B]), 6, at + 6, [0x43, 0, 0, 0x80, 0x3F, 0x0B])
  {
    hide InstrSpec, ExprSpec;
    FloatConstStep(at, thing);
    ExprUnfold(FloatConstExpr, 0, at, thing, 0);
    ExprEndAtDepthZero(FloatConstExpr, 5, at + 5, thing);
    var first: seq<byte> := [0x43, 0, 0, 0x80, 0x3F];
    assert first + [0x0B] == [0x43, 0, 0, 0x80, 0x3F, 0x0B];
  }

  /** ref.null (0xD0) is not among the accepted opcodes. */
  lemma ExprRejectsRefNull(at: int, thing: Thing)
    ensures ReadExprSpec([0xD0, 0x70, 0x0B], 0, at, thing).result == Err(At(thing, at, UnknownOpcode(0xD0)))
  {
  }

  // ---------------------------------------------------------------------------
  // Expect
  // ---------------------------------------------------------------------------

  /** Expect fails with ReadN's own error when the bytes run out, and with a mismatch at the
      start offset when they differ; either way the bytes read are the ones recorded. */
  lemma ExpectOutcome(d: seq<byte>, p: nat, at: int, thing: Thing, bytes: seq<byte>)
    requires p <= |d|
    ensures var o := ExpectSpec(d, p, at, thing, bytes);
      (p + |bytes| > |d| ==>
        o.result == Err(At(thing, at, if p == |d| then EOF else UnexpectedEOF)) && o.pos == |d| && o.logged == []) &&
      (p + |bytes| <= |d| ==>
        o.pos == p + |bytes| && o.cur == at + |bytes| && o.logged == d[p..p + |bytes|]) &&
      (p + |bytes| <= |d| && d[p..p + |bytes|] != bytes ==>
        o.result == Err(Reading(thing, Mismatch(at, bytes, d[p..p + |bytes|]))))
  {
  }
}
