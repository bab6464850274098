// The Isolate driver (isolate/isolate.go): check the module preamble, then walk the
// sections, skipping each one by its size except the import section, whose entries are
// read one by one while the function imports are counted. The text lines the driver
// writes are not modelled; what it returns (an error, or success) and the count of
// imported functions it reports are.

module IsolateDriver {
  import opened Base
  import opened Leb128
  import opened IsolateTypes
  import opened IsolateParser

  /** The binary module preamble: the magic number "\0asm" and version 1. */
  const MAGIC: seq<byte> := [0x00, 0x61, 0x73, 0x6D]
  const VERSION: seq<byte> := [0x01, 0x00, 0x00, 0x00]
  const IMPORT_SECTION: byte := 2

  /** Where the driver stands after a read: its result, the reader's position and the offset.
      The driver never records, so nothing else of the cursor changes. */
  datatype Progress<T> = Progress(result: Result<T>, pos: nat, cur: int)

  function Fail<T, U>(o: Outcome<T>): Progress<U>
    requires o.result.Err?
  {
    Progress(Err(o.result.error), o.pos, o.cur)
  }

  /** The fields of `p` after a step with progress `o`, from their values before it. */
  twostate predicate Moved<T>(p: Parser, new o: Progress<T>)
    reads p
  {
    p.pos == o.pos && p.pos <= |p.input| && p.cur == o.cur &&
    p.record == old(p.record) && p.recorded == old(p.recorded)
  }

  // ---------------------------------------------------------------------------
  // The walk, as functions of the input
  // ---------------------------------------------------------------------------

  /** The description that follows an import's kind byte: a type index for a function, a
      table, memory, global or tag type for kinds 1 to 4, and nothing for any other kind. */
  function ImportDescSpec(d: seq<byte>, p: nat, at: int, kind: byte): (r: Progress<()>)
    requires p <= |d|
    ensures p <= r.pos <= |d|
  {
    if kind == 0 then
      var o := ReadU32Spec(d, p, at, TypeOfImported(0));
      if o.result.Err? then Fail(o) else Progress(Ok(()), o.pos, o.cur)
    else if kind == 1 then
      var o := ReadTableTypeSpec(d, p, at, TypeOfImported(1));
      if o.result.Err? then Fail(o) else Progress(Ok(()), o.pos, o.cur)
    else if kind == 2 then
      var o := ReadMemTypeSpec(d, p, at, TypeOfImported(2));
      if o.result.Err? then Fail(o) else Progress(Ok(()), o.pos, o.cur)
    else if kind == 3 then
      var o := ReadGlobalTypeSpec(d, p, at, TypeOfImported(3));
      if o.result.Err? then Fail(o) else Progress(Ok(()), o.pos, o.cur)
    else if kind == 4 then
      var o := ReadTagTypeSpec(d, p, at, TypeOfImported(4));
      if o.result.Err? then Fail(o) else Progress(Ok(()), o.pos, o.cur)
    else Progress(Ok(()), p, at)
  }

  /** One import entry: module name, name, kind byte and description; the result is the kind. */
  function ImportSpec(d: seq<byte>, p: nat, at: int): (r: Progress<byte>)
    requires p <= |d|
    ensures p <= r.pos <= |d|
  {
    var m := ReadNameSpec(d, p, at, ImportModule);
    if m.result.Err? then Fail(m)
    else
      var n := ReadNameSpec(d, m.pos, m.cur, ImportName);
      if n.result.Err? then Fail(n)
      else
        var k := ReadByteSpec(d, n.pos, n.cur, ImportType);
        if k.result.Err? then Fail(k)
        else
          var t := ImportDescSpec(d, k.pos, k.cur, k.result.value);
          if t.result.Err? then Progress(Err(t.result.error), t.pos, t.cur)
          else Progress(Ok(k.result.value), t.pos, t.cur)
  }

  /** `count` more import entries after those whose kind bytes are `kinds`; on success, the
      kind byte of every entry, in order. */
  function ImportsSpec(d: seq<byte>, p: nat, at: int, count: nat, kinds: seq<byte>): (r: Progress<seq<byte>>)
    requires p <= |d|
    ensures p <= r.pos <= |d|
    ensures r.result.Ok? ==> |r.result.value| == |kinds| + count
    decreases count
  {
    if count == 0 then Progress(Ok(kinds), p, at)
    else
      var e := ImportSpec(d, p, at);
      if e.result.Err? then Progress(Err(e.result.error), e.pos, e.cur)
      else ImportsSpec(d, e.pos, e.cur, count - 1, kinds + [e.result.value])
  }

  /** How many of the kind bytes are 0x00, the kind of a function import. */
  function FunctionImports(kinds: seq<byte>): (r: nat)
    ensures r <= |kinds|
  {
    if kinds == [] then 0
    else FunctionImports(kinds[..|kinds| - 1]) + (if kinds[|kinds| - 1] == 0 then 1 else 0)
  }

  /** One pass of the section loop: how it ends, and whether the loop goes on. */
  datatype SectionStep = SectionStep(o: Progress<nat>, more: bool)

  function SectionSpec(d: seq<byte>, p: nat, at: int, numFuncs: nat): (r: SectionStep)
    requires p <= |d|
    ensures p <= r.o.pos <= |d|
    ensures r.more ==> r.o.result.Ok? && r.o.pos > p
    ensures r.o.result.Ok? ==> r.o.result.value >= numFuncs
  {
    var id := ReadByteSpec(d, p, at, SectionId);
    // the only way reading one byte fails is io.EOF, which ends the loop without an error
    if id.result.Err? then SectionStep(Progress(Ok(numFuncs), id.pos, id.cur), false)
    else
      var size := ReadU32Spec(d, id.pos, id.cur, SectionSize);
      if size.result.Err? then SectionStep(Fail(size), false)
      else if id.result.value == IMPORT_SECTION then
        var count := ReadU32Spec(d, size.pos, size.cur, NumImports);
        if count.result.Err? then SectionStep(Fail(count), false)
        else
          var imports := ImportsSpec(d, count.pos, count.cur, count.result.value, []);
          if imports.result.Err? then SectionStep(Progress(Err(imports.result.error), imports.pos, imports.cur), false)
          else SectionStep(Progress(Ok(numFuncs + FunctionImports(imports.result.value)), imports.pos, imports.cur), true)
      else
        var body := ReadNSpec(d, size.pos, size.cur, SectionContents, size.result.value);
        if body.result.Err? then SectionStep(Fail(body), false)
        else SectionStep(Progress(Ok(numFuncs), body.pos, body.cur), true)
  }

  /** The section loop, from `p` with `numFuncs` function imports counted so far. */
  function SectionsSpec(d: seq<byte>, p: nat, at: int, numFuncs: nat): (r: Progress<nat>)
    requires p <= |d|
    ensures p <= r.pos <= |d|
    decreases |d| - p
  {
    var st := SectionSpec(d, p, at, numFuncs);
    if !st.more then st.o else SectionsSpec(d, st.o.pos, st.o.cur, st.o.result.value)
  }

  /** Isolate: the preamble, then the section loop from offset 8 with no function counted. */
  function IsolateSpec(d: seq<byte>): (r: Progress<nat>)
  {
    var magic := ExpectSpec(d, 0, 0, MagicNumber, MAGIC);
    if magic.result.Err? then Fail(magic)
    else
      var version := ExpectSpec(d, magic.pos, magic.cur, VersionNumber, VERSION);
      if version.result.Err? then Fail(version)
      else SectionsSpec(d, version.pos, version.cur, 0)
  }

  // ---------------------------------------------------------------------------
  // The driver
  // ---------------------------------------------------------------------------

  method ReadImportDesc(p: Parser, kind: byte) returns (r: Result<()>)
    requires p.Valid() && !p.record
    modifies p
    ensures var o := ImportDescSpec(p.input, old(p.pos), old(p.cur), kind); r == o.result && Moved(p, o)
  {
    r := Ok(());
    if kind == 0x00 {
      var t, _ := p.ReadU32(TypeOfImported(0));
      if t.Err? {
        r := Err(t.error);
      }
    } else if kind == 0x01 {
      var t := p.ReadTableType(TypeOfImported(1));
      if t.Err? {
        r := Err(t.error);
      }
    } else if kind == 0x02 {
      var t := p.ReadMemType(TypeOfImported(2));
      if t.Err? {
        r := Err(t.error);
      }
    } else if kind == 0x03 {
      var t := p.ReadGlobalType(TypeOfImported(3));
      if t.Err? {
        r := Err(t.error);
      }
    } else if kind == 0x04 {
      var t := p.ReadTagType(TypeOfImported(4));
      if t.Err? {
        r := Err(t.error);
      }
    }
  }

  method ReadImport(p: Parser) returns (r: Result<byte>)
    requires p.Valid() && !p.record
    modifies p
    ensures var o := ImportSpec(p.input, old(p.pos), old(p.cur)); r == o.result && Moved(p, o)
  {
    var m := p.ReadName(ImportModule);
    if m.Err? {
      return Err(m.error);
    }
    var n := p.ReadName(ImportName);
    if n.Err? {
      return Err(n.error);
    }
    var kind := p.ReadByte(ImportType);
    if kind.Err? {
      return Err(kind.error);
    }
    var t := ReadImportDesc(p, kind.value);
    if t.Err? {
      return Err(t.error);
    }
    r := Ok(kind.value);
  }

  lemma FunctionImportsSnoc(kinds: seq<byte>, k: byte)
    ensures FunctionImports(kinds + [k]) == FunctionImports(kinds) + (if k == 0 then 1 else 0)
  {
    assert (kinds + [k])[..|kinds|] == kinds;
  }

  /** One pass of the import section's loop: on success, the entries from here on are those
      after this one, with its kind byte appended to those read before. */
  method ReadImportEntry(p: Parser, count: nat, ghost kinds: seq<byte>) returns (r: Result<byte>)
    requires p.Valid() && !p.record && count > 0
    modifies p
    ensures p.Valid() && !p.record && p.recorded == old(p.recorded)
    ensures var all := ImportsSpec(p.input, old(p.pos), old(p.cur), count, kinds);
      (r.Ok? ==> all == ImportsSpec(p.input, p.pos, p.cur, count - 1, kinds + [r.value])) &&
      (r.Err? ==> all.result == Err(r.error) && Moved(p, all))
  {
    r := ReadImport(p);
  }

  /** The import section's loop over `count` entries, counting the function imports. */
  method ReadImports(p: Parser, count: nat, numFuncs0: nat) returns (r: Result<nat>)
    requires p.Valid() && !p.record
    modifies p
    ensures var o := ImportsSpec(p.input, old(p.pos), old(p.cur), count, []);
      Moved(p, o) &&
      (o.result.Ok? ==> r == Ok(numFuncs0 + FunctionImports(o.result.value))) &&
      (o.result.Err? ==> r == Err(o.result.error))
  {
    hide ImportSpec;
    var numFuncs := numFuncs0;
    ghost var kinds: seq<byte> := [];
    var left := count;
    while left > 0
      invariant p.Valid() && !p.record && p.recorded == old(p.recorded)
      invariant numFuncs == numFuncs0 + FunctionImports(kinds)
      invariant ImportsSpec(p.input, old(p.pos), old(p.cur), count, []) ==
        ImportsSpec(p.input, p.pos, p.cur, left, kinds)
    {
      var kind := ReadImportEntry(p, left, kinds);
      if kind.Err? {
        return Err(kind.error);
      }
      if kind.value == 0x00 {
        numFuncs := numFuncs + 1;
      }
      FunctionImportsSnoc(kinds, kind.value);
      kinds := kinds + [kind.value];
      left := left - 1;
    }
    r := Ok(numFuncs);
  }

  /** One pass of the section loop. */
  method ReadSection(p: Parser, numFuncs: nat) returns (more: bool, numFuncs': nat, r: Result<()>)
    requires p.Valid() && !p.record
    modifies p
    ensures var st := SectionSpec(p.input, old(p.pos), old(p.cur), numFuncs);
      more == st.more && Moved(p, st.o) &&
      (st.o.result.Ok? ==> r.Ok? && numFuncs' == st.o.result.value) &&
      (st.o.result.Err? ==> r == Err(st.o.result.error))
  {
    numFuncs' := numFuncs;
    var sectionId := p.ReadByte(SectionId);
    if sectionId.Err? {
      // io.EOF: the module ends here
      return false, numFuncs', Ok(());
    }
    var sectionSize, _ := p.ReadU32(SectionSize);
    if sectionSize.Err? {
      return false, numFuncs', Err(sectionSize.error);
    }
    if sectionId.value == IMPORT_SECTION {
      var numImports, _ := p.ReadU32(NumImports);
      if numImports.Err? {
        return false, numFuncs', Err(numImports.error);
      }
      var total := ReadImports(p, numImports.value, numFuncs);
      if total.Err? {
        return false, numFuncs', Err(total.error);
      }
      return true, total.value, Ok(());
    }
    var contents := p.ReadN(SectionContents, sectionSize.value);
    if contents.Err? {
      return false, numFuncs', Err(contents.error);
    }
    return true, numFuncs', Ok(());
  }

  /** Isolate: its error, or on success the number of imported functions it reports. The
      requested function indices are not used by the Go code. */
  method Isolate(wasm: seq<byte>, funcs: seq<int>) returns (r: Result<nat>)
    ensures r == IsolateSpec(wasm).result
  {
    var p := new Parser(wasm);
    var e := p.Expect(MagicNumber, MAGIC);
    if e.Err? {
      return Err(e.error);
    }
    e := p.Expect(VersionNumber, VERSION);
    if e.Err? {
      return Err(e.error);
    }
    var numFuncs := 0;
    while true
      invariant p.Valid() && !p.record && p.input == wasm
      invariant SectionsSpec(wasm, p.pos, p.cur, numFuncs) == IsolateSpec(wasm)
      decreases |wasm| - p.pos
    {
      var more, err;
      more, numFuncs, err := ReadSection(p, numFuncs);
      if !more {
        if err.Err? {
          return Err(err.error);
        }
        break;
      }
    }
    r := Ok(numFuncs);
  }
}
