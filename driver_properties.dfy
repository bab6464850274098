// What the Isolate driver promises (isolate/isolate.go), stated over its specification:
// the preamble check, the end of the section walk, the skipping of sections by their size,
// and the count of imported functions.

module DriverProperties {
  import opened Base
  import opened Leb128
  import opened IsolateTypes
  import opened IsolateParser
  import opened IsolateDriver
  import opened ParserProperties

  // ---------------------------------------------------------------------------
  // The preamble
  // ---------------------------------------------------------------------------

  /** Isolate fails before any section unless the input starts with the magic number and
      version 1, and says which of the two was wrong, at which offset. */
  lemma IsolatePreamble(d: seq<byte>)
    ensures IsolateSpec(d).result.Ok? ==> |d| >= 8 && d[..4] == MAGIC && d[4..8] == VERSION
    ensures |d| < 4 ==> IsolateSpec(d).result == Err(At(MagicNumber, 0, if |d| == 0 then EOF else UnexpectedEOF))
    ensures |d| >= 4 && d[..4] != MAGIC ==> IsolateSpec(d).result == Err(Reading(MagicNumber, Mismatch(0, MAGIC, d[..4])))
    ensures |d| >= 4 && d[..4] == MAGIC && |d| < 8 ==>
      IsolateSpec(d).result == Err(At(VersionNumber, 4, if |d| == 4 then EOF else UnexpectedEOF))
    ensures |d| >= 8 && d[..4] == MAGIC && d[4..8] != VERSION ==>
      IsolateSpec(d).result == Err(Reading(VersionNumber, Mismatch(4, VERSION, d[4..8])))
    ensures |d| >= 8 && d[..4] == MAGIC && d[4..8] == VERSION ==> IsolateSpec(d) == SectionsSpec(d, 8, 8, 0)
  {
  }

  // ---------------------------------------------------------------------------
  // The section walk
  // ---------------------------------------------------------------------------

  /** At the end of the input the walk stops, without an error and without counting more. */
  lemma SectionsAtEnd(d: seq<byte>, at: int, numFuncs: nat)
    ensures SectionsSpec(d, |d|, at, numFuncs) == Progress(Ok(numFuncs), |d|, at)
  {
  }

  /** A walk that succeeds has consumed the whole input, and never counts down. */
  lemma {:induction false} SectionsConsumeAll(d: seq<byte>, p: nat, at: int, numFuncs: nat)
    requires p <= |d|
    ensures var o := SectionsSpec(d, p, at, numFuncs);
      o.result.Ok? ==> o.pos == |d| && o.result.value >= numFuncs
    decreases |d| - p
  {
    var st := SectionSpec(d, p, at, numFuncs);
    if st.more {
      SectionsConsumeAll(d, st.o.pos, st.o.cur, st.o.result.value);
    }
  }

  /** A section other than the import section is skipped by exactly its size: the id byte,
      the LEB128 size, then `size` bytes. */
  lemma SectionSkip(d: seq<byte>, p: nat, at: int, numFuncs: nat)
    requires p < |d| && d[p] != IMPORT_SECTION
    ensures var size := UnsignedDecoding(d[p + 1..]);
      var q := p + 1 + size.n;
      var n := size.value % U32_LIMIT;
      var st := SectionSpec(d, p, at, numFuncs);
      (size.overflow ==> st == SectionStep(Progress(Err(At(SectionSize, at + 1, Overflow)), q, at + 1), false)) &&
      (!size.overflow && q + n <= |d| ==> st == SectionStep(Progress(Ok(numFuncs), q + n, at + 1 + size.n + n), true)) &&
      (!size.overflow && q + n > |d| ==>
        st == SectionStep(Progress(Err(At(SectionContents, at + 1 + size.n, if q == |d| then EOF else UnexpectedEOF)), |d|, at + 1 + size.n), false))
  {
  }

  // ---------------------------------------------------------------------------
  // Counting imported functions
  // ---------------------------------------------------------------------------

  /** The walk over the entries keeps the kind bytes read before it, in front. */
  lemma {:induction false} ImportsKeepKinds(d: seq<byte>, p: nat, at: int, count: nat, kinds: seq<byte>)
    requires p <= |d|
    ensures var o := ImportsSpec(d, p, at, count, kinds);
      o.result.Ok? ==> o.result.value[..|kinds|] == kinds
    decreases count
  {
    hide ImportSpec;
    if count > 0 {
      var e := ImportSpec(d, p, at);
      if e.result.Ok? {
        var more := kinds + [e.result.value];
        ImportsKeepKinds(d, e.pos, e.cur, count - 1, more);
        assert more[..|kinds|] == kinds;
      }
    }
  }

  /** An entry that fails stops the walk with that entry's error; one that succeeds adds its kind
      byte and goes on with one entry fewer. */
  lemma ImportsStep(d: seq<byte>, p: nat, at: int, count: nat, kinds: seq<byte>)
    requires p <= |d| && count > 0
    ensures var e := ImportSpec(d, p, at);
      var o := ImportsSpec(d, p, at, count, kinds);
      (e.result.Err? ==> o == Progress(Err(e.result.error), e.pos, e.cur)) &&
      (e.result.Ok? ==> o == ImportsSpec(d, e.pos, e.cur, count - 1, kinds + [e.result.value]))
  {
  }

  /** FunctionImports counts the occurrences of the kind byte 0x00. */
  lemma {:induction false} FunctionImportsCount(kinds: seq<byte>)
    ensures FunctionImports(kinds) == multiset(kinds)[0]
  {
    if kinds != [] {
      var init := kinds[..|kinds| - 1];
      FunctionImportsCount(init);
      assert kinds == init + [kinds[|kinds| - 1]];
    }
  }

  /** The import section raises the count by exactly the number of its entries of kind 0x00, the
      function imports, once every one of its entries has been read. */
  lemma ImportSectionCount(d: seq<byte>, p: nat, at: int, numFuncs: nat)
    requires p < |d| && d[p] == IMPORT_SECTION
    ensures var st := SectionSpec(d, p, at, numFuncs);
      var size := ReadU32Spec(d, p + 1, at + 1, SectionSize);
      var count := ReadU32Spec(d, size.pos, size.cur, NumImports);
      st.o.result.Ok? ==>
        size.result.Ok? && count.result.Ok? &&
        var o := ImportsSpec(d, count.pos, count.cur, count.result.value, []);
        o.result.Ok? && |o.result.value| == count.result.value &&
        st.o.result.value == numFuncs + multiset(o.result.value)[0] &&
        st.o.pos == o.pos && st.more
  {
    hide ImportSpec, ImportsSpec, ReadU32Spec, ReadNSpec;
    var size := ReadU32Spec(d, p + 1, at + 1, SectionSize);
    var count := ReadU32Spec(d, size.pos, size.cur, NumImports);
    if size.result.Ok? && count.result.Ok? {
      var o := ImportsSpec(d, count.pos, count.cur, count.result.value, []);
      if o.result.Ok? {
        FunctionImportsCount(o.result.value);
      }
    }
  }

  /** A kind byte above 0x04 is accepted with nothing after it; kind 0x00 is followed by a u32
      type index. */
  lemma ImportDescKinds(d: seq<byte>, p: nat, at: int, kind: byte)
    requires p <= |d|
    ensures kind > 4 ==> ImportDescSpec(d, p, at, kind) == Progress(Ok(()), p, at)
    ensures kind == 0 ==>
      var idx := UnsignedDecoding(d[p..]);
      ImportDescSpec(d, p, at, kind).pos == p + idx.n &&
      (ImportDescSpec(d, p, at, kind).result.Ok? <==> !idx.overflow)
  {
  }

  /** A module holding one import section with one function import "m" "f" of type 0. */
  const ONE_FUNCTION_IMPORT: seq<byte> :=
    [0x00, 0x61, 0x73, 0x6D, 0x01, 0x00, 0x00, 0x00,
     0x02, 0x07, 0x01, 0x01, 0x6D, 0x01, 0x66, 0x00, 0x00]

  /** Its one entry: module "m", name "f", kind 0x00, type index 0. */
  lemma OneFunctionImportEntry()
    ensures ImportSpec(ONE_FUNCTION_IMPORT, 11, 11) == Progress(Ok(0), 17, 17)
  {
    var d := ONE_FUNCTION_IMPORT;
    OneByteDecoding(d[11..]);
    OneByteDecoding(d[13..]);
    OneByteDecoding(d[16..]);
  }

  /** Isolate counts one imported function in it. */
  lemma OneFunctionImport()
    ensures IsolateSpec(ONE_FUNCTION_IMPORT).result == Ok(1)
  {
    var d := ONE_FUNCTION_IMPORT;
    OneFunctionImportEntry();
    hide ImportSpec;
    assert d[..4] == MAGIC && d[4..8] == VERSION;
    OneByteDecoding(d[9..]);
    OneByteDecoding(d[10..]);
    var kinds: seq<byte> := [0];
    assert [] + kinds == kinds;
    assert ImportsSpec(d, 11, 11, 1, []) == Progress(Ok(kinds), 17, 17);
    assert SectionSpec(d, 8, 8, 0) == SectionStep(Progress(Ok(1), 17, 17), true);
    assert SectionsSpec(d, 17, 17, 1) == Progress(Ok(1), 17, 17);
  }
}
