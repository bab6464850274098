// The Go cursor over a WebAssembly binary (isolate/parser.go). The buffered reader is an
// input byte string with a read position `pos`; besides it the cursor keeps the offset
// `cur` used in error messages (it moves on successful reads only) and a recording buffer
// that captures the bytes taken by the byte-level reads while recording is on.
//
// Each read is specified twice: a pure function of the input, the read position and the
// offset (`...Spec`, returning an Outcome), and a method of the Parser class proved to
// perform exactly that outcome on the object's fields.

module IsolateParser {
  import opened Base
  import opened Leb128
  import opened IsolateTypes

  /** What was being read: the label an error message starts with. Each label of the
      cursor and of its driver is a constructor; the compound ones wrap the caller's label. */
  datatype Thing =
    | MagicNumber | VersionNumber
    | SectionId | SectionSize | SectionContents
    | NumImports | ImportModule | ImportName | ImportType
    | TypeOfImported(kind: byte)       // kind 0..4: function, table, memory, global, tag
    | LimitsFlags | LimitsMin | LimitsMax
    | ElementTypeFor(of: Thing)
    | LimitsFor(of: Thing)
    | ConstIn(op: byte, of: Thing)     // op 0x41..0x44: i32, i64, f32, f64 .const
    | Named(name: string)              // any other caller's label

  /** The label as the Go code spells it. */
  function Text(t: Thing): string {
    match t
    case MagicNumber => "magic number"
    case VersionNumber => "version number"
    case SectionId => "section id"
    case SectionSize => "section size"
    case SectionContents => "section contents"
    case NumImports => "num imports"
    case ImportModule => "import module"
    case ImportName => "import name"
    case ImportType => "import type"
    case TypeOfImported(kind) =>
      "type of imported " +
      (if kind == 0 then "function" else if kind == 1 then "table" else if kind == 2 then "memory"
       else if kind == 3 then "global" else "tag")
    case LimitsFlags => "limits flags"
    case LimitsMin => "limits min"
    case LimitsMax => "limits max"
    case ElementTypeFor(of) => "element type for " + Text(of)
    case LimitsFor(of) => "limits for " + Text(of)
    case ConstIn(op, of) =>
      (if op == 0x41 then "i32" else if op == 0x42 then "i64" else if op == 0x43 then "f32" else "f64") +
      ".const in " + Text(of)
    case Named(name) => name
  }

  /** Why a read failed: the wrapped Go error. */
  datatype Cause =
    | EOF                      // io.EOF: the reader had nothing left
    | UnexpectedEOF            // io.ErrUnexpectedEOF: fewer bytes than requested
    | Overflow                 // leb128.ErrOverflow
    | InvalidValType
    | InvalidAbstractHeapType
    | InvalidHeapType
    | UnknownOpcode(op: byte)

  datatype Error =
    | At(thing: Thing, at: int, cause: Cause)                   // "<thing> at offset <at>: <cause>"
    | Mismatch(at: int, expected: seq<byte>, actual: seq<byte>)  // from AssertBytesEqual
    | Reading(thing: Thing, inner: Error)                       // Expect's "reading <thing>: <inner>"

  /** errors.Is(err, io.EOF) */
  predicate IsEOF(e: Error) {
    match e
    case At(_, _, cause) => cause == EOF
    case Mismatch(_, _, _) => false
    case Reading(_, inner) => IsEOF(inner)
  }

  datatype Result<T> = Ok(value: T) | Err(error: Error)

  /** What a read does: its result, the reader's new position, the new offset, and the
      bytes it appends to the recording buffer while recording. */
  datatype Outcome<T> = Outcome(result: Result<T>, pos: nat, cur: int, logged: seq<byte>)

  /** A second read after a first one: the second's result, with the logs of both. */
  function Then<T, U>(first: Outcome<T>, second: Outcome<U>): Outcome<U> {
    Outcome(second.result, second.pos, second.cur, first.logged + second.logged)
  }

  /** A failed read, passed on unchanged under another result type. */
  function Failed<T, U>(o: Outcome<T>): Outcome<U>
    requires o.result.Err?
  {
    Outcome(Err(o.result.error), o.pos, o.cur, o.logged)
  }

  function WithResult<T, U>(o: Outcome<T>, r: Result<U>): Outcome<U> {
    Outcome(r, o.pos, o.cur, o.logged)
  }

  lemma AppendAssoc(a: seq<byte>, b: seq<byte>, c: seq<byte>)
    ensures (a + b) + c == a + (b + c)
  {
  }

  // ---------------------------------------------------------------------------
  // Byte-level reads
  // ---------------------------------------------------------------------------

  /** ReadN: io.ReadFull of n bytes. A short reader is drained and the read fails with
      EOF when nothing was left, UnexpectedEOF otherwise; the offset does not move. */
  function ReadNSpec(d: seq<byte>, p: nat, at: int, thing: Thing, n: nat): (r: Outcome<seq<byte>>)
    requires p <= |d|
    ensures p <= r.pos <= |d|
    ensures r.result.Ok? <==> p + n <= |d|
    ensures r.result.Ok? ==> r.result.value == d[p..p + n] && r.pos == p + n && r.cur == at + n && r.logged == d[p..p + n]
    ensures r.result.Err? ==> r.result.error == At(thing, at, if p == |d| then EOF else UnexpectedEOF)
    ensures r.result.Err? ==> r.pos == |d| && r.cur == at && r.logged == []
  {
    if p + n <= |d| then Outcome(Ok(d[p..p + n]), p + n, at + n, d[p..p + n])
    else Outcome(Err(At(thing, at, if p == |d| then EOF else UnexpectedEOF)), |d|, at, [])
  }

  /** PeekByte: the next byte, leaving everything as it is. */
  function PeekByteSpec(d: seq<byte>, p: nat, at: int, thing: Thing): (r: Outcome<byte>)
    requires p <= |d|
    ensures r.pos == p && r.cur == at && r.logged == []
    ensures r.result.Ok? <==> p < |d|
    ensures r.result.Ok? ==> r.result.value == d[p]
    ensures r.result.Err? ==> r.result.error == At(thing, at, EOF)
  {
    if p == |d| then Outcome(Err(At(thing, at, EOF)), p, at, []) else Outcome(Ok(d[p]), p, at, [])
  }

  function ReadByteSpec(d: seq<byte>, p: nat, at: int, thing: Thing): (r: Outcome<byte>)
    requires p <= |d|
    ensures p <= r.pos <= |d|
    ensures r.result.Ok? <==> p < |d|
    ensures r.result.Ok? ==> r.result.value == d[p] && r.pos == p + 1 && r.cur == at + 1 && r.logged == [d[p]]
    ensures r.result.Err? ==> r.result.error == At(thing, at, EOF) && r.pos == p && r.cur == at && r.logged == []
  {
    if p == |d| then Outcome(Err(At(thing, at, EOF)), p, at, []) else Outcome(Ok(d[p]), p + 1, at + 1, [d[p]])
  }

  /** ReadU64: the decoder's bytes leave the reader but are never recorded, and the offset
      moves only on success. */
  function ReadU64Spec(d: seq<byte>, p: nat, at: int, thing: Thing): (r: Outcome<u64>)
    requires p <= |d|
    ensures r.pos == p + UnsignedDecoding(d[p..]).n && r.pos <= |d| && r.logged == []
    ensures r.result.Ok? <==> !UnsignedDecoding(d[p..]).overflow
    ensures r.result.Ok? ==> r.result.value == UnsignedDecoding(d[p..]).value && r.cur == at + (r.pos - p)
    ensures r.result.Err? ==> r.result.error == At(thing, at, Overflow) && r.cur == at
  {
    var dec := UnsignedDecoding(d[p..]);
    if dec.overflow then Outcome(Err(At(thing, at, Overflow)), p + dec.n, at, [])
    else Outcome(Ok(dec.value), p + dec.n, at + dec.n, [])
  }

  /** ReadU32: the low 32 bits of ReadU64's value. */
  function ReadU32Spec(d: seq<byte>, p: nat, at: int, thing: Thing): (r: Outcome<u32>)
    requires p <= |d|
    ensures var o := ReadU64Spec(d, p, at, thing);
      r.pos == o.pos && r.cur == o.cur && r.logged == [] && (r.result.Ok? <==> o.result.Ok?)
    ensures r.result.Ok? ==> r.result.value == UnsignedDecoding(d[p..]).value % U32_LIMIT
    ensures r.result.Err? ==> r.result.error == At(thing, at, Overflow)
  {
    var o := ReadU64Spec(d, p, at, thing);
    if o.result.Err? then Failed(o) else WithResult(o, Ok(TruncU32(o.result.value)))
  }

  function ReadS64Spec(d: seq<byte>, p: nat, at: int, thing: Thing): (r: Outcome<int>)
    requires p <= |d|
    ensures r.pos == p + SignedDecoding(d[p..]).n && r.pos <= |d| && r.logged == []
    ensures r.result.Ok? <==> !SignedDecoding(d[p..]).overflow
    ensures r.result.Ok? ==> r.result.value == SignedDecoding(d[p..]).value && r.cur == at + (r.pos - p)
    ensures r.result.Err? ==> r.result.error == At(thing, at, Overflow) && r.cur == at
  {
    var dec := SignedDecoding(d[p..]);
    if dec.overflow then Outcome(Err(At(thing, at, Overflow)), p + dec.n, at, [])
    else Outcome(Ok(dec.value), p + dec.n, at + dec.n, [])
  }

  /** ReadS32: int32 of ReadS64's value. */
  function ReadS32Spec(d: seq<byte>, p: nat, at: int, thing: Thing): (r: Outcome<int>)
    requires p <= |d|
    ensures var o := ReadS64Spec(d, p, at, thing);
      r.pos == o.pos && r.cur == o.cur && r.logged == [] && (r.result.Ok? <==> o.result.Ok?)
    ensures r.result.Ok? ==> -0x8000_0000 <= r.result.value < 0x8000_0000
    ensures r.result.Ok? && -0x8000_0000 <= SignedDecoding(d[p..]).value < 0x8000_0000 ==>
      r.result.value == SignedDecoding(d[p..]).value
  {
    var o := ReadS64Spec(d, p, at, thing);
    if o.result.Err? then Failed(o) else WithResult(o, Ok(TruncI32(o.result.value)))
  }

  function Pow256(n: nat): (r: nat)
    ensures r >= 1
  {
    if n == 0 then 1 else 256 * Pow256(n - 1)
  }

  /** The little-endian integer of a byte string: b[0] | b[1] << 8 | ... */
  function LittleEndian(b: seq<byte>): (r: nat)
    ensures r < Pow256(|b|)
  {
    if b == [] then 0 else b[0] + 256 * LittleEndian(b[1..])
  }

  /** ReadF32 (width 4) / ReadF64 (width 8): the little-endian bit pattern of the next bytes;
      the float it is reinterpreted as is not modelled. */
  function ReadFloatBitsSpec(d: seq<byte>, p: nat, at: int, thing: Thing, width: nat): (r: Outcome<nat>)
    requires p <= |d|
    ensures p <= r.pos <= |d|
    ensures r.result.Ok? <==> p + width <= |d|
    ensures r.result.Ok? ==> r.result.value == LittleEndian(d[p..p + width]) && r.result.value < Pow256(width)
    ensures r.result.Ok? ==> r.pos == p + width && r.logged == d[p..p + width] && r.cur == at + width
  {
    var o := ReadNSpec(d, p, at, thing, width);
    if o.result.Err? then Failed(o) else WithResult(o, Ok(LittleEndian(o.result.value)))
  }

  /** ReadName: a u32 length, then that many bytes. */
  function ReadNameSpec(d: seq<byte>, p: nat, at: int, thing: Thing): (r: Outcome<seq<byte>>)
    requires p <= |d|
    ensures p <= r.pos <= |d|
    ensures r.result.Ok? ==> r.cur == at + (r.pos - p)
  {
    var len := ReadU32Spec(d, p, at, thing);
    if len.result.Err? then Failed(len)
    else Then(len, ReadNSpec(d, len.pos, len.cur, thing, len.result.value))
  }

  // ---------------------------------------------------------------------------
  // The type grammar
  // ---------------------------------------------------------------------------

  /** ReadHeapType: an s64; a negative value must come in one byte, and the value must be a heap type. */
  function ReadHeapTypeSpec(d: seq<byte>, p: nat, at: int, thing: Thing): (r: Outcome<int>)
    requires p <= |d|
    ensures p <= r.pos <= |d| && r.logged == []
    ensures r.result.Ok? ==> r.cur == at + (r.pos - p)
    ensures r.result.Err? ==> r.result.error.At? && r.result.error.at == at && r.result.error.thing == thing
  {
    var k := ReadS64Spec(d, p, at, thing);
    if k.result.Err? then Failed(k)
    else if k.result.value < 0 && k.pos - p != 1 then WithResult(k, Err(At(thing, at, InvalidAbstractHeapType)))
    else if !IsHeapType(k.result.value) then WithResult(k, Err(At(thing, at, InvalidHeapType)))
    else WithResult(k, Ok(k.result.value))
  }

  /** ReadRefType: an optional 0x64 / 0x63 marker (0x63: nullable), then a heap type. */
  function ReadRefTypeSpec(d: seq<byte>, p: nat, at: int, thing: Thing): (r: Outcome<RefType>)
    requires p <= |d|
    ensures p <= r.pos <= |d|
    ensures r.result.Ok? ==> r.cur == at + (r.pos - p)
  {
    var kind := PeekByteSpec(d, p, at, thing);
    if kind.result.Err? then Failed(kind)
    else
      var marked := kind.result.value == 0x64 || kind.result.value == 0x63;
      var marker := if marked then ReadByteSpec(d, p, at, thing) else kind;
      var ht := ReadHeapTypeSpec(d, marker.pos, marker.cur, thing);
      var o := Then(marker, ht);
      if ht.result.Err? then Failed(o)
      else WithResult(o, Ok(RefType(kind.result.value == 0x63, ht.result.value)))
  }

  /** ReadValType: one byte taken as the type code. The byte is unsigned (0..255), so neither
      the numeric and vector codes nor the reference markers (all negative) can equal it; the
      marker arm of the source's switch can never be taken and is left out. */
  function ReadValTypeSpec(d: seq<byte>, p: nat, at: int, thing: Thing): (r: Outcome<ValType>)
    requires p <= |d|
    ensures p <= r.pos <= |d|
    ensures r.result.Ok? ==> r.cur == at + (r.pos - p)
  {
    var t := ReadByteSpec(d, p, at, thing);
    if t.result.Err? then Failed(t)
    else
      var tc: int := t.result.value;
      if IsNumType(tc) || IsVecType(tc) then WithResult(t, Ok(ValType(false, tc, ZERO_REF)))
      else if IsHeapType(tc) then WithResult(t, Ok(ValType(true, 0, RefType(true, tc))))
      else WithResult(t, Err(At(thing, at, InvalidValType)))
  }

  /** ReadLimits: a flags byte, min, then max iff flag bit 0; flag bit 2 selects 64-bit
      addresses. The reads carry the limits' own labels, not the caller's. */
  function ReadLimitsSpec(d: seq<byte>, p: nat, at: int): (r: Outcome<Limits>)
    requires p <= |d|
    ensures p <= r.pos <= |d|
    ensures r.result.Ok? ==> r.cur == at + (r.pos - p)
  {
    var flags := ReadByteSpec(d, p, at, LimitsFlags);
    if flags.result.Err? then Failed(flags)
    else
      var min := ReadU64Spec(d, flags.pos, flags.cur, LimitsMin);
      var o1 := Then(flags, min);
      if min.result.Err? then Failed(o1)
      else
        var addr := if (flags.result.value / 4) % 2 == 1 then AtI64 else AtI32;
        if flags.result.value % 2 == 1 then
          var max := ReadU64Spec(d, o1.pos, o1.cur, LimitsMax);
          var o2 := Then(o1, max);
          if max.result.Err? then Failed(o2)
          else WithResult(o2, Ok(Limits(addr, min.result.value, max.result.value, true)))
        else WithResult(o1, Ok(Limits(addr, min.result.value, 0, false)))
  }

  function ReadTableTypeSpec(d: seq<byte>, p: nat, at: int, thing: Thing): (r: Outcome<TableType>)
    requires p <= |d|
    ensures p <= r.pos <= |d|
    ensures r.result.Ok? ==> r.cur == at + (r.pos - p)
  {
    var et := ReadRefTypeSpec(d, p, at, ElementTypeFor(thing));
    if et.result.Err? then Failed(et)
    else
      var lim := ReadLimitsSpec(d, et.pos, et.cur);
      var o := Then(et, lim);
      if lim.result.Err? then Failed(o) else WithResult(o, Ok(TableType(et.result.value, lim.result.value)))
  }

  function ReadMemTypeSpec(d: seq<byte>, p: nat, at: int, thing: Thing): (r: Outcome<MemType>)
    requires p <= |d|
    ensures p <= r.pos <= |d|
    ensures r.result.Ok? ==> r.cur == at + (r.pos - p)
  {
    var lim := ReadLimitsSpec(d, p, at);
    if lim.result.Err? then Failed(lim) else WithResult(lim, Ok(MemType(lim.result.value)))
  }

  /** ReadGlobalType: a value type, then a mutability byte; only 0x01 means mutable. */
  function ReadGlobalTypeSpec(d: seq<byte>, p: nat, at: int, thing: Thing): (r: Outcome<GlobalType>)
    requires p <= |d|
    ensures p <= r.pos <= |d|
    ensures r.result.Ok? ==> r.cur == at + (r.pos - p)
  {
    var t := ReadValTypeSpec(d, p, at, thing);
    if t.result.Err? then Failed(t)
    else
      var mut := ReadByteSpec(d, t.pos, t.cur, thing);
      var o := Then(t, mut);
      if mut.result.Err? then Failed(o) else WithResult(o, Ok(GlobalType(mut.result.value == 0x01, t.result.value)))
  }

  /** ReadTagType: an attribute byte (ignored), then the u32 type index. */
  function ReadTagTypeSpec(d: seq<byte>, p: nat, at: int, thing: Thing): (r: Outcome<u32>)
    requires p <= |d|
    ensures p <= r.pos <= |d|
    ensures r.result.Ok? ==> r.cur == at + (r.pos - p)
  {
    var attr := ReadByteSpec(d, p, at, thing);
    if attr.result.Err? then Failed(attr)
    else Then(attr, ReadU32Spec(d, attr.pos, attr.cur, thing))
  }

  // ---------------------------------------------------------------------------
  // Constant expressions
  // ---------------------------------------------------------------------------

  /** The opcodes ReadExpr accepts besides `end` (0x0B): the four constants, then
      i32.add/sub/mul and i64.add/sub/mul. */
  predicate KnownExprOpcode(op: byte) {
    0x41 <= op <= 0x44 || 0x6A <= op <= 0x6C || 0x7C <= op <= 0x7E
  }

  /** The immediate of i32.const, i64.const, f32.const or f64.const. */
  function ExprImmediate(d: seq<byte>, p: nat, at: int, thing: Thing, op: byte): (r: Outcome<()>)
    requires p <= |d|
    requires 0x41 <= op <= 0x44
    ensures p <= r.pos <= |d|
  {
    if op == 0x41 then
      var o := ReadU32Spec(d, p, at, ConstIn(0x41, thing));
      if o.result.Err? then Failed(o) else WithResult(o, Ok(()))
    else if op == 0x42 then
      var o := ReadU64Spec(d, p, at, ConstIn(0x42, thing));
      if o.result.Err? then Failed(o) else WithResult(o, Ok(()))
    else if op == 0x43 then
      var o := ReadFloatBitsSpec(d, p, at, ConstIn(0x43, thing), 4);
      if o.result.Err? then Failed(o) else WithResult(o, Ok(()))
    else
      var o := ReadFloatBitsSpec(d, p, at, ConstIn(0x44, thing), 8);
      if o.result.Err? then Failed(o) else WithResult(o, Ok(()))
  }

  /** One pass of ReadExpr's loop: what it does, whether the loop goes on, and the depth after it. */
  datatype InstrStep = InstrStep(o: Outcome<()>, more: bool, depth: int)

  function InstrSpec(d: seq<byte>, p: nat, at: int, thing: Thing, depth: int): (r: InstrStep)
    requires p <= |d|
    ensures p <= r.o.pos <= |d|
    ensures r.more ==> r.o.result.Ok? && r.o.pos > p
  {
    var b := ReadByteSpec(d, p, at, thing);
    if b.result.Err? then InstrStep(Failed(b), false, depth)
    else
      var op := b.result.value;
      if op == 0x0B then
        if depth == 0 then InstrStep(WithResult(b, Ok(())), false, depth)
        else InstrStep(WithResult(b, Ok(())), true, depth - 1)
      else if 0x41 <= op <= 0x44 then
        var imm := Then(b, ExprImmediate(d, b.pos, b.cur, thing, op));
        InstrStep(imm, imm.result.Ok?, depth)
      else if KnownExprOpcode(op) then InstrStep(WithResult(b, Ok(())), true, depth)
      else InstrStep(WithResult(b, Err(At(thing, b.cur - 1, UnknownOpcode(op)))), false, depth)
  }

  /** ReadExpr's loop from nesting depth `depth` until it stops. */
  function ExprSpec(d: seq<byte>, p: nat, at: int, thing: Thing, depth: int): (r: Outcome<()>)
    requires p <= |d|
    ensures p <= r.pos <= |d|
    decreases |d| - p
  {
    var st := InstrSpec(d, p, at, thing, depth);
    if !st.more then st.o else Then(st.o, ExprSpec(d, st.o.pos, st.o.cur, thing, st.depth))
  }

  /** ReadExpr: the loop from depth 0, recording into a fresh buffer; on success the result
      is what was recorded. */
  function ReadExprSpec(d: seq<byte>, p: nat, at: int, thing: Thing): (r: Outcome<seq<byte>>)
    requires p <= |d|
    ensures p <= r.pos <= |d|
    ensures r.logged == ExprSpec(d, p, at, thing, 0).logged
    ensures r.result.Ok? ==> r.result.value == r.logged
  {
    var o := ExprSpec(d, p, at, thing, 0);
    WithResult(o, if o.result.Ok? then Ok(o.logged) else Err(o.result.error))
  }

  /** Expect: read as many bytes as expected; fail unless they are exactly those. */
  function ExpectSpec(d: seq<byte>, p: nat, at: int, thing: Thing, bytes: seq<byte>): (r: Outcome<()>)
    requires p <= |d|
    ensures p <= r.pos <= |d|
    ensures r.result.Ok? <==> p + |bytes| <= |d| && d[p..p + |bytes|] == bytes
  {
    var actual := ReadNSpec(d, p, at, thing, |bytes|);
    if actual.result.Err? then Failed(actual)
    else if actual.result.value != bytes then WithResult(actual, Err(Reading(thing, Mismatch(at, bytes, actual.result.value))))
    else WithResult(actual, Ok(()))
  }

  // ---------------------------------------------------------------------------
  // The cursor
  // ---------------------------------------------------------------------------

  class Parser {
    /** Everything the reader will deliver. */
    const input: seq<byte>
    /** How much of it the reader has delivered. */
    var pos: nat
    /** The offset reported in error messages. */
    var cur: int
    var record: bool
    var recorded: seq<byte>

    predicate Valid()
      reads this
    {
      pos <= |input|
    }

    /** newParser: a reader over `wasm`, at offset 0. */
    constructor (wasm: seq<byte>)
      ensures Valid() && input == wasm && pos == 0 && cur == 0 && !record && recorded == []
    {
      input, pos, cur, record, recorded := wasm, 0, 0, false, [];
    }

    /** newParserFromBytes: a reader over `b` whose offsets start at `at`. */
    constructor FromBytes(b: seq<byte>, at: int)
      ensures Valid() && input == b && pos == 0 && cur == at && !record && recorded == []
    {
      input, pos, cur, record, recorded := b, 0, at, false, [];
    }

    /** The fields after a read with outcome `o`, from their values before it. */
    twostate predicate Performed<T>(new o: Outcome<T>)
      reads this
    {
      pos == o.pos && pos <= |input| && cur == o.cur && record == old(record) &&
      recorded == old(recorded) + (if record then o.logged else [])
    }

    method StartRecording()
      modifies this
      ensures record && recorded == []
      ensures pos == old(pos) && cur == old(cur)
    {
      record := true;
      recorded := [];
    }

    method StopRecording() returns (r: seq<byte>)
      modifies this
      ensures !record && r == old(recorded)
      ensures pos == old(pos) && cur == old(cur) && recorded == old(recorded)
    {
      record := false;
      r := recorded;
    }

    method ReadN(thing: Thing, n: nat) returns (r: Result<seq<byte>>)
      requires Valid()
      modifies this
      ensures var o := ReadNSpec(input, old(pos), old(cur), thing, n); r == o.result && Performed(o)
    {
      var at := cur;
      if pos + n <= |input| {
        var bytes := input[pos..pos + n];
        pos := pos + n;
        cur := cur + n;
        if record {
          recorded := recorded + bytes;
        }
        r := Ok(bytes);
      } else {
        var cause := if pos == |input| then EOF else UnexpectedEOF;
        pos := |input|;
        r := Err(At(thing, at, cause));
      }
    }

    method PeekByte(thing: Thing) returns (r: Result<byte>)
      requires Valid()
      ensures r == PeekByteSpec(input, pos, cur, thing).result
    {
      if pos == |input| {
        r := Err(At(thing, cur, EOF));
      } else {
        r := Ok(input[pos]);
      }
    }

    method ReadByte(thing: Thing) returns (r: Result<byte>)
      requires Valid()
      modifies this
      ensures var o := ReadByteSpec(input, old(pos), old(cur), thing); r == o.result && Performed(o)
    {
      var at := cur;
      if pos == |input| {
        r := Err(At(thing, at, EOF));
      } else {
        var b := input[pos];
        pos := pos + 1;
        cur := cur + 1;
        if record {
          recorded := recorded + [b];
        }
        r := Ok(b);
      }
    }

    method ReadU64(thing: Thing) returns (r: Result<u64>, n: nat)
      requires Valid()
      modifies this
      ensures var o := ReadU64Spec(input, old(pos), old(cur), thing); r == o.result && n == o.pos - old(pos) && Performed(o)
    {
      var at := cur;
      var v, k, overflow := DecodeU64(input[pos..]);
      pos := pos + k;
      if overflow {
        return Err(At(thing, at, Overflow)), k;
      }
      cur := cur + k;
      return Ok(v), k;
    }

    method ReadU32(thing: Thing) returns (r: Result<u32>, n: nat)
      requires Valid()
      modifies this
      ensures var o := ReadU32Spec(input, old(pos), old(cur), thing); r == o.result && n == o.pos - old(pos) && Performed(o)
    {
      var v;
      v, n := ReadU64(thing);
      if v.Err? {
        return Err(v.error), n;
      }
      r := Ok(TruncU32(v.value));
    }

    method ReadS64(thing: Thing) returns (r: Result<int>, n: nat)
      requires Valid()
      modifies this
      ensures var o := ReadS64Spec(input, old(pos), old(cur), thing); r == o.result && n == o.pos - old(pos) && Performed(o)
    {
      var at := cur;
      var v, k, overflow := DecodeS64(input[pos..]);
      pos := pos + k;
      if overflow {
        return Err(At(thing, at, Overflow)), k;
      }
      cur := cur + k;
      return Ok(v), k;
    }

    method ReadS32(thing: Thing) returns (r: Result<int>, n: nat)
      requires Valid()
      modifies this
      ensures var o := ReadS32Spec(input, old(pos), old(cur), thing); r == o.result && n == o.pos - old(pos) && Performed(o)
    {
      var v;
      v, n := ReadS64(thing);
      if v.Err? {
        return Err(v.error), n;
      }
      r := Ok(TruncI32(v.value));
    }

    /** ReadF32 (width 4) and ReadF64 (width 8), returning the bit pattern. */
    method ReadFloatBits(thing: Thing, width: nat) returns (r: Result<nat>)
      requires Valid()
      modifies this
      ensures var o := ReadFloatBitsSpec(input, old(pos), old(cur), thing, width); r == o.result && Performed(o)
    {
      var b := ReadN(thing, width);
      if b.Err? {
        return Err(b.error);
      }
      r := Ok(LittleEndian(b.value));
    }

    method ReadName(thing: Thing) returns (r: Result<seq<byte>>)
      requires Valid()
      modifies this
      ensures var o := ReadNameSpec(input, old(pos), old(cur), thing); r == o.result && Performed(o)
    {
      var n, _ := ReadU32(thing);
      if n.Err? {
        return Err(n.error);
      }
      r := ReadN(thing, n.value);
    }

    method ReadHeapType(thing: Thing) returns (r: Result<int>)
      requires Valid()
      modifies this
      ensures var o := ReadHeapTypeSpec(input, old(pos), old(cur), thing); r == o.result && Performed(o)
    {
      var at := cur;
      var kind, n := ReadS64(thing);
      if kind.Err? {
        return Err(kind.error);
      }
      if kind.value < 0 && n != 1 {
        return Err(At(thing, at, InvalidAbstractHeapType));
      }
      var ht := kind.value;
      if !IsHeapType(ht) {
        return Err(At(thing, at, InvalidHeapType));
      }
      r := Ok(ht);
    }

    method ReadRefType(thing: Thing) returns (r: Result<RefType>)
      requires Valid()
      modifies this
      ensures var o := ReadRefTypeSpec(input, old(pos), old(cur), thing); r == o.result && Performed(o)
    {
      var kind := PeekByte(thing);
      if kind.Err? {
        return Err(kind.error);
      }
      var nullable := false;
      if kind.value == 0x64 || kind.value == 0x63 {
        // Cannot fail: the byte was just peeked.
        var _ := ReadByte(thing);
        nullable := kind.value == 0x63;
      }
      var ht := ReadHeapType(thing);
      if ht.Err? {
        return Err(ht.error);
      }
      r := Ok(RefType(nullable, ht.value));
    }

    method ReadValType(thing: Thing) returns (r: Result<ValType>)
      requires Valid()
      modifies this
      ensures var o := ReadValTypeSpec(input, old(pos), old(cur), thing); r == o.result && Performed(o)
    {
      var at := cur;
      var t := ReadByte(thing);
      if t.Err? {
        return Err(t.error);
      }
      var tc: int := t.value;
      if IsNumType(tc) || IsVecType(tc) {
        r := Ok(ValType(false, tc, ZERO_REF));
      } else if IsHeapType(tc) {
        r := Ok(ValType(true, 0, RefType(true, tc)));
      } else {
        r := Err(At(thing, at, InvalidValType));
      }
    }

    method ReadLimits(thing: Thing) returns (r: Result<Limits>)
      requires Valid()
      modifies this
      ensures var o := ReadLimitsSpec(input, old(pos), old(cur)); r == o.result && Performed(o)
    {
      var flags := ReadByte(LimitsFlags);
      if flags.Err? {
        return Err(flags.error);
      }
      var min, _ := ReadU64(LimitsMin);
      if min.Err? {
        return Err(min.error);
      }
      var lim := Limits(AtI32, min.value, 0, false);
      if flags.value % 2 == 1 {
        var max, _ := ReadU64(LimitsMax);
        if max.Err? {
          return Err(max.error);
        }
        lim := lim.(hasMax := true, max := max.value);
      }
      if (flags.value / 4) % 2 == 1 {
        lim := lim.(at := AtI64);
      }
      r := Ok(lim);
    }

    method ReadTableType(thing: Thing) returns (r: Result<TableType>)
      requires Valid()
      modifies this
      ensures var o := ReadTableTypeSpec(input, old(pos), old(cur), thing); r == o.result && Performed(o)
    {
      hide ReadRefTypeSpec, ReadLimitsSpec;
      ghost var rec0 := recorded;
      var et := ReadRefType(ElementTypeFor(thing));
      if et.Err? {
        return Err(et.error);
      }
      ghost var rec1 := recorded;
      var lim := ReadLimits(LimitsFor(thing));
      if lim.Err? {
        return Err(lim.error);
      }
      AppendAssoc(rec0, rec1[|rec0|..], recorded[|rec1|..]);
      r := Ok(TableType(et.value, lim.value));
    }

    method ReadMemType(thing: Thing) returns (r: Result<MemType>)
      requires Valid()
      modifies this
      ensures var o := ReadMemTypeSpec(input, old(pos), old(cur), thing); r == o.result && Performed(o)
    {
      var lim := ReadLimits(LimitsFor(thing));
      if lim.Err? {
        return Err(lim.error);
      }
      r := Ok(MemType(lim.value));
    }

    method ReadGlobalType(thing: Thing) returns (r: Result<GlobalType>)
      requires Valid()
      modifies this
      ensures var o := ReadGlobalTypeSpec(input, old(pos), old(cur), thing); r == o.result && Performed(o)
    {
      ghost var rec0 := recorded;
      var t := ReadValType(thing);
      if t.Err? {
        return Err(t.error);
      }
      ghost var rec1 := recorded;
      var mut := ReadByte(thing);
      if mut.Err? {
        return Err(mut.error);
      }
      AppendAssoc(rec0, rec1[|rec0|..], recorded[|rec1|..]);
      r := Ok(GlobalType(mut.value == 0x01, t.value));
    }

    method ReadTagType(thing: Thing) returns (r: Result<u32>)
      requires Valid()
      modifies this
      ensures var o := ReadTagTypeSpec(input, old(pos), old(cur), thing); r == o.result && Performed(o)
    {
      var attr := ReadByte(thing);
      if attr.Err? {
        return Err(attr.error);
      }
      var n;
      r, n := ReadU32(thing);
    }

    /** The immediate of a constant instruction. */
    method ReadImmediate(thing: Thing, op: byte) returns (r: Result<()>)
      requires Valid() && 0x41 <= op <= 0x44
      modifies this
      ensures var o := ExprImmediate(input, old(pos), old(cur), thing, op); r == o.result && Performed(o)
    {
      r := Ok(());
      if op == 0x41 {
        var v, _ := ReadU32(ConstIn(0x41, thing));
        if v.Err? {
          r := Err(v.error);
        }
      } else if op == 0x42 {
        var v, _ := ReadU64(ConstIn(0x42, thing));
        if v.Err? {
          r := Err(v.error);
        }
      } else if op == 0x43 {
        var v := ReadFloatBits(ConstIn(0x43, thing), 4);
        if v.Err? {
          r := Err(v.error);
        }
      } else {
        var v := ReadFloatBits(ConstIn(0x44, thing), 8);
        if v.Err? {
          r := Err(v.error);
        }
      }
    }

    /** How one pass of ReadExpr's loop from `depth` relates to the whole loop: when the pass
        stops the loop it has done all the loop does; when the loop goes on at `depth'`, the
        rest of the loop ends as the whole loop does, and the bytes recorded so far followed by
        the rest's are the bytes recorded before followed by the whole loop's. */
    twostate predicate Passed(thing: Thing, depth: int, more: bool, depth': int, new r: Result<()>)
      reads this
    {
      old(pos) <= |input| && pos <= |input| &&
      var all := ExprSpec(input, old(pos), old(cur), thing, depth);
      if more then
        var rest := ExprSpec(input, pos, cur, thing, depth');
        record == old(record) && old(pos) < pos &&
        rest.result == all.result && rest.pos == all.pos && rest.cur == all.cur &&
        recorded + (if record then rest.logged else []) == old(recorded) + (if record then all.logged else [])
      else
        r == all.result && Performed(all)
    }

    /** One pass of ReadExpr's loop: one opcode and its immediate. */
    method ReadInstr(thing: Thing, depth: int) returns (more: bool, depth': int, r: Result<()>)
      requires Valid()
      modifies this
      ensures Passed(thing, depth, more, depth', r)
    {
      ghost var p0, c0, rec0 := pos, cur, recorded;
      ghost var st := InstrSpec(input, pos, cur, thing, depth);
      more, depth', r := ReadInstrBody(thing, depth);
      if more {
        ghost var rest := ExprSpec(input, pos, cur, thing, depth');
        assert ExprSpec(input, p0, c0, thing, depth) == Then(st.o, rest);
        AppendAssoc(rec0, if record then st.o.logged else [], if record then rest.logged else []);
      }
    }

    method ReadInstrBody(thing: Thing, depth: int) returns (more: bool, depth': int, r: Result<()>)
      requires Valid()
      modifies this
      ensures var st := InstrSpec(input, old(pos), old(cur), thing, depth);
        more == st.more && depth' == st.depth && r == st.o.result && Performed(st.o)
    {
      depth' := depth;
      var b1 := ReadByte(thing);
      if b1.Err? {
        return false, depth', Err(b1.error);
      }
      var op := b1.value;
      if op == 0x0B {
        if depth == 0 {
          return false, depth', Ok(());
        }
        depth' := depth - 1;
        return true, depth', Ok(());
      } else if 0x41 <= op <= 0x44 {
        ghost var rec1 := recorded;
        r := ReadImmediate(thing, op);
        AppendAssoc(old(recorded), if record then [op] else [], recorded[|rec1|..]);
        return r.Ok?, depth', r;
      } else if KnownExprOpcode(op) {
        // i32.add, i32.sub, i32.mul, i64.add, i64.sub, i64.mul: nothing follows the opcode
        return true, depth', Ok(());
      }
      return false, depth', Err(At(thing, cur - 1, UnknownOpcode(op)));
    }

    method ReadExpr(thing: Thing) returns (r: Result<seq<byte>>)
      requires Valid()
      modifies this
      ensures var o := ReadExprSpec(input, old(pos), old(cur), thing);
        r == o.result && pos == o.pos && cur == o.cur && !record && recorded == o.logged && Valid()
    {
      StartRecording();
      ghost var p0, at0 := pos, cur;
      var depth := 0;
      while true
        invariant Valid() && record
        invariant var o := ExprSpec(input, pos, cur, thing, depth);
          ExprSpec(input, p0, at0, thing, 0) == Outcome(o.result, o.pos, o.cur, recorded + o.logged)
        decreases |input| - pos
      {
        var more, err;
        more, depth, err := ReadInstr(thing, depth);
        if !more {
          r := if err.Ok? then Ok(recorded) else Err(err.error);
          break;
        }
      }
      var _ := StopRecording();
    }

    method Expect(thing: Thing, bytes: seq<byte>) returns (r: Result<()>)
      requires Valid()
      modifies this
      ensures var o := ExpectSpec(input, old(pos), old(cur), thing, bytes); r == o.result && Performed(o)
    {
      var at := cur;
      var actual := ReadN(thing, |bytes|);
      if actual.Err? {
        return Err(actual.error);
      }
      var mismatch := AssertBytesEqual(at, actual.value, bytes);
      if mismatch.Some? {
        return Err(Reading(thing, mismatch.value));
      }
      r := Ok(());
    }

    /** An error exactly when the two byte strings differ in length or at some position. */
    method AssertBytesEqual(at: int, actual: seq<byte>, expected: seq<byte>) returns (r: Option<Error>)
      ensures r.None? <==> actual == expected
      ensures r.Some? ==> r.value == Mismatch(at, expected, actual)
    {
      if |actual| != |expected| {
        return Some(Mismatch(at, expected, actual));
      }
      var i := 0;
      while i < |actual|
        invariant 0 <= i <= |actual|
        invariant actual[..i] == expected[..i]
      {
        if actual[i] != expected[i] {
          return Some(Mismatch(at, expected, actual));
        }
        i := i + 1;
      }
      assert actual == actual[..i];
      return None;
    }
  }
}
