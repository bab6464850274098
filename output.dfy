// The section list of src/main.rs. While reading the payloads, the tool records in input order
// which sections the input had; a custom section is kept as its raw bytes unless it is the
// `name` section. The output loop then writes one section per recorded one, rebuilt from the
// live items, so a section the input lacked is never written.

module ModuleOutput {
  import opened Base
  import opened LiveUses
  import opened OperatorUses
  import opened WasmModule
  import opened Relocations
  import opened ItemUses
  import opened Worklist
  import opened Renumber
  import opened Sections

  // ---------------------------------------------------------------------------
  // Recording the sections
  // ---------------------------------------------------------------------------

  /** The kinds of `enum Section` that are rebuilt from the live items. */
  datatype SectionKind =
    | TypeSec | ImportSec | FunctionSec | TableSec | MemorySec | GlobalSec | ExportSec
    | StartSec | ElementSec | CodeSec | DataSec | DataCountSec | TagSec

  /** `enum Section`: a custom section passed through as raw bytes, or a rebuilt one. */
  datatype Section = Passthrough(id: byte, data: seq<byte>) | Standard(kind: SectionKind)

  /** The payloads as far as the section list is concerned: the start of a known section (the
      code section starts with `CodeSectionStart`), a custom section with its name and contents,
      and everything else (the header, each code entry, the end). */
  datatype Payload = SectionPayload(kind: SectionKind) | CustomPayload(name: string, data: seq<byte>) | OtherPayload

  /** What one payload adds to the list: a known section records its kind; a custom section is
      recorded as raw bytes with id 0 unless it is named "name". */
  function Recorded(p: Payload): seq<Section> {
    match p
    case SectionPayload(k) => [Standard(k)]
    case CustomPayload(name, data) => if name == "name" then [] else [Passthrough(0, data)]
    case OtherPayload => []
  }

  /** The section list after the payload loop has gone through `ps`. */
  function SectionList(ps: seq<Payload>): seq<Section>
    decreases |ps|
  {
    if ps == [] then []
    else SectionList(ps[..|ps| - 1]) + Recorded(ps[|ps| - 1])
  }

  /** The `sections.push` calls of the payload loop. */
  method RecordSections(ps: seq<Payload>) returns (sections: seq<Section>)
    ensures sections == SectionList(ps)
  {
    sections := [];
    assert ps[..0] == [];
    for i := 0 to |ps|
      invariant sections == SectionList(ps[..i])
    {
      assert ps[..i + 1][..i] == ps[..i];
      match ps[i] {
      case SectionPayload(k) =>
        sections := sections + [Standard(k)];
      case CustomPayload(name, data) =>
        if name != "name" {
          sections := sections + [Passthrough(0, data)];
        }
      case OtherPayload =>
      }
    }
    assert ps[..|ps|] == ps;
  }

  /** The payloads are recorded in order: the list of a concatenation is the concatenation of
      the lists. */
  lemma {:induction false} SectionListConcat(a: seq<Payload>, b: seq<Payload>)
    ensures SectionList(a + b) == SectionList(a) + SectionList(b)
    decreases |b|
  {
    if b == [] {
      assert a + b == a;
    } else {
      var init := b[..|b| - 1];
      assert (a + b)[..|a + b| - 1] == a + init;
      assert (a + b)[|a + b| - 1] == b[|b| - 1];
      SectionListConcat(a, init);
    }
  }

  /** A section is in the list exactly when the input had it: a rebuilt kind when its payload
      occurs, raw bytes with id 0 when a custom section other than `name` carries them. */
  lemma {:induction false} SectionListMembers(ps: seq<Payload>, s: Section)
    ensures s in SectionList(ps) <==>
      (s.Standard? && SectionPayload(s.kind) in ps) ||
      (s.Passthrough? && s.id == 0 && exists name :: CustomPayload(name, s.data) in ps && name != "name")
    decreases |ps|
  {
    if ps != [] {
      var init := ps[..|ps| - 1];
      var last := ps[|ps| - 1];
      assert ps == init + [last];
      SectionListMembers(init, s);
      if s.Passthrough? && last.CustomPayload? && last.name != "name" && last.data == s.data {
        assert CustomPayload(last.name, s.data) in ps;
      }
      if s.Passthrough? && s.id == 0 {
        if name :| CustomPayload(name, s.data) in ps && name != "name" {
          if CustomPayload(name, s.data) != last {
            assert CustomPayload(name, s.data) in init;
          }
        }
      }
    }
  }

  /** The `name` section is never passed through. */
  lemma NameSectionDropped(ps: seq<Payload>, data: seq<byte>)
    requires forall p :: p in ps && p.CustomPayload? && p.data == data ==> p.name == "name"
    ensures Passthrough(0, data) !in SectionList(ps)
  {
    SectionListMembers(ps, Passthrough(0, data));
  }

  // ---------------------------------------------------------------------------
  // Writing the sections
  // ---------------------------------------------------------------------------

  /** A written section and its contents. */
  datatype OutSection =
    | RawOut(id: byte, data: seq<byte>)
    | TypeOut(types: seq<TypeEntry>)
    | ImportOut(imports: seq<Import>)
    | FunctionOut(funcTypes: seq<u32>)
    | TableOut(tables: seq<DefinedTable>)
    | MemoryOut(memories: seq<nat>)
    | GlobalOut(globals: seq<DefinedGlobal>)
    | ExportOut(exports: seq<Export>)
    | StartOut(funcIndex: u32)
    | ElementOut(elemSegments: seq<ElementSegment>)
    | CodeOut(funcs: seq<Func>)
    | DataOut(dataSegments: seq<DataSegment>)
    | DataCountOut(count: u32)
    | TagOut(tags: seq<TagType>)

  /** The `match section` arms: what one recorded section writes. Only the function section can
      panic, and a start section whose function has no entry writes nothing. */
  function Written(s: Section, m: Module, args: Uses, all: Uses, relocs: RelocationMap): Result<seq<OutSection>> {
    match s
    case Passthrough(id, data) => Ok([RawOut(id, data)])
    case Standard(k) =>
      match k
      case TypeSec => Ok([TypeOut(TypeSectionSpec(m.recGroups, relocs))])
      case ImportSec => Ok([ImportOut(ImportSectionSpec(m.imports, all, relocs))])
      case FunctionSec =>
        (match FunctionSectionSpec(m, relocs, |m.definedFuncs|)
         case Panicked => Panicked
         case Ok(f) => Ok([FunctionOut(f)]))
      case TableSec => Ok([TableOut(TableSectionSpec(m, relocs))])
      case MemorySec => Ok([MemoryOut(MemorySectionSpec(m, relocs))])
      case GlobalSec => Ok([GlobalOut(GlobalSectionSpec(m, relocs))])
      case ExportSec => Ok([ExportOut(ExportSectionSpec(m.exports, args, relocs))])
      case StartSec =>
        (match StartSection(m.startIdx, relocs)
         case None => Ok([])
         case Some(f) => Ok([StartOut(f)]))
      case ElementSec => Ok([ElementOut(ElementSectionSpec(m, relocs))])
      case CodeSec => Ok([CodeOut(CodeSectionSpec(m, all))])
      case DataSec => Ok([DataOut(DataSectionSpec(m, relocs))])
      case DataCountSec => Ok([DataCountOut(DataCount(all))])
      case TagSec => Ok([TagOut(TagSectionSpec(m, relocs))])
  }

  /** The output after the `for section in sections` loop has gone through `sections`. */
  function OutputSpec(sections: seq<Section>, m: Module, args: Uses, all: Uses, relocs: RelocationMap): Result<seq<OutSection>>
    decreases |sections|
  {
    if sections == [] then Ok([])
    else
      match OutputSpec(sections[..|sections| - 1], m, args, all, relocs)
      case Panicked => Panicked
      case Ok(prev) =>
        match Written(sections[|sections| - 1], m, args, all, relocs)
        case Panicked => Panicked
        case Ok(w) => Ok(prev + w)
  }

  lemma {:induction false} OutputPanicPersists(sections: seq<Section>, i: nat, m: Module, args: Uses, all: Uses,
      relocs: RelocationMap)
    requires i <= |sections| && OutputSpec(sections[..i], m, args, all, relocs) == Panicked
    ensures OutputSpec(sections, m, args, all, relocs) == Panicked
    decreases |sections| - i
  {
    if i < |sections| {
      assert sections[..i + 1][..i] == sections[..i];
      OutputPanicPersists(sections, i + 1, m, args, all, relocs);
    } else {
      assert sections[..i] == sections;
    }
  }

  /** The output loop: one section per recorded section, in order. */
  method EmitModule(sections: seq<Section>, m: Module, args: Uses, all: Uses, relocs: RelocationMap)
    returns (r: Result<seq<OutSection>>)
    ensures r == OutputSpec(sections, m, args, all, relocs)
  {
    var out: seq<OutSection> := [];
    assert sections[..0] == [];
    for i := 0 to |sections|
      invariant OutputSpec(sections[..i], m, args, all, relocs) == Ok(out)
    {
      assert sections[..i + 1][..i] == sections[..i];
      var w: seq<OutSection>;
      match sections[i] {
      case Passthrough(id, data) =>
        w := [RawOut(id, data)];
      case Standard(k) =>
        match k {
        case TypeSec =>
          var t := EmitTypeSection(m.recGroups, relocs);
          w := [TypeOut(t)];
        case ImportSec =>
          var t := EmitImportSection(m.imports, all, relocs);
          w := [ImportOut(t)];
        case FunctionSec =>
          var t := EmitFunctionSection(m, relocs);
          if t.Panicked? {
            OutputPanicPersists(sections, i + 1, m, args, all, relocs);
            return Panicked;
          }
          w := [FunctionOut(t.value)];
        case TableSec =>
          var t := EmitTableSection(m, relocs);
          w := [TableOut(t)];
        case MemorySec =>
          var t := EmitMemorySection(m, relocs);
          w := [MemoryOut(t)];
        case GlobalSec =>
          var t := EmitGlobalSection(m, relocs);
          w := [GlobalOut(t)];
        case ExportSec =>
          var t := EmitExportSection(m.exports, args, relocs);
          w := [ExportOut(t)];
        case StartSec =>
          w := [];
          if m.startIdx.Some? && Relocation.Func(m.startIdx.value) in relocs {
            w := [StartOut(relocs[Relocation.Func(m.startIdx.value)])];
          }
        case ElementSec =>
          var t := EmitElementSection(m, relocs);
          w := [ElementOut(t)];
        case CodeSec =>
          var t := EmitCodeSection(m, all);
          w := [CodeOut(t)];
        case DataSec =>
          var t := EmitDataSection(m, relocs);
          w := [DataOut(t)];
        case DataCountSec =>
          w := [DataCountOut(TruncU32(|all.liveDatas|))];
        case TagSec =>
          var t := EmitTagSection(m, relocs);
          w := [TagOut(t)];
        }
      }
      assert Written(sections[i], m, args, all, relocs) == Ok(w);
      out := out + w;
    }
    assert sections[..|sections|] == sections;
    r := Ok(out);
  }

  // ---------------------------------------------------------------------------
  // What the output holds
  // ---------------------------------------------------------------------------

  /** The recorded section a written one comes from. */
  function SourceOf(o: OutSection): Section {
    match o
    case RawOut(id, data) => Passthrough(id, data)
    case TypeOut(_) => Standard(TypeSec)
    case ImportOut(_) => Standard(ImportSec)
    case FunctionOut(_) => Standard(FunctionSec)
    case TableOut(_) => Standard(TableSec)
    case MemoryOut(_) => Standard(MemorySec)
    case GlobalOut(_) => Standard(GlobalSec)
    case ExportOut(_) => Standard(ExportSec)
    case StartOut(_) => Standard(StartSec)
    case ElementOut(_) => Standard(ElementSec)
    case CodeOut(_) => Standard(CodeSec)
    case DataOut(_) => Standard(DataSec)
    case DataCountOut(_) => Standard(DataCountSec)
    case TagOut(_) => Standard(TagSec)
  }

  function SourcesOf(out: seq<OutSection>): seq<Section>
    decreases |out|
  {
    if out == [] then [] else SourcesOf(out[..|out| - 1]) + [SourceOf(out[|out| - 1])]
  }

  /** The recorded sections that write something: all but a start section whose function has
      no entry. */
  function WritingSections(sections: seq<Section>, startIdx: Option<u32>, relocs: RelocationMap): seq<Section>
    decreases |sections|
  {
    if sections == [] then []
    else
      var s := sections[|sections| - 1];
      WritingSections(sections[..|sections| - 1], startIdx, relocs)
        + (if s == Standard(StartSec) && StartSection(startIdx, relocs).None? then [] else [s])
  }

  lemma {:induction false} SourcesOfConcat(a: seq<OutSection>, b: seq<OutSection>)
    ensures SourcesOf(a + b) == SourcesOf(a) + SourcesOf(b)
    decreases |b|
  {
    if b == [] {
      assert a + b == a;
    } else {
      var init := b[..|b| - 1];
      assert (a + b)[..|a + b| - 1] == a + init;
      assert (a + b)[|a + b| - 1] == b[|b| - 1];
      SourcesOfConcat(a, init);
    }
  }

  /** One recorded section writes at most one section, of its own kind, and nothing only for a
      start section without an entry. */
  lemma WrittenSource(s: Section, m: Module, args: Uses, all: Uses, relocs: RelocationMap)
    requires Written(s, m, args, all, relocs).Ok?
    ensures SourcesOf(Written(s, m, args, all, relocs).value) ==
      if s == Standard(StartSec) && StartSection(m.startIdx, relocs).None? then [] else [s]
  {
    hide TypeSectionSpec, ImportSectionSpec, FunctionSectionSpec, TableSectionSpec, MemorySectionSpec, GlobalSectionSpec,
      ExportSectionSpec, StartSection, ElementSectionSpec, CodeSectionSpec, DataSectionSpec, DataCount, TagSectionSpec;
    var w := Written(s, m, args, all, relocs).value;
    if w != [] {
      assert w == [w[0]];
      assert SourcesOf(w) == SourcesOf([]) + [SourceOf(w[0])];
    }
  }

  /** The output keeps the input's section order: it writes, in order, one section for each
      recorded section, except a start section whose function has no entry. */
  lemma {:induction false} OutputKeepsOrder(sections: seq<Section>, m: Module, args: Uses, all: Uses,
      relocs: RelocationMap)
    requires OutputSpec(sections, m, args, all, relocs).Ok?
    ensures SourcesOf(OutputSpec(sections, m, args, all, relocs).value) == WritingSections(sections, m.startIdx, relocs)
    decreases |sections|
  {
    if sections != [] {
      var init := sections[..|sections| - 1];
      var last := sections[|sections| - 1];
      OutputKeepsOrder(init, m, args, all, relocs);
      var prev := OutputSpec(init, m, args, all, relocs).value;
      var w := Written(last, m, args, all, relocs).value;
      assert OutputSpec(sections, m, args, all, relocs).value == prev + w;
      SourcesOfConcat(prev, w);
      WrittenSource(last, m, args, all, relocs);
    }
  }

  /** The output panics exactly when the input had a function section and writing it panics. */
  lemma {:induction false} OutputPanics(sections: seq<Section>, m: Module, args: Uses, all: Uses, relocs: RelocationMap)
    ensures OutputSpec(sections, m, args, all, relocs).Panicked? <==>
      Standard(FunctionSec) in sections && FunctionSectionSpec(m, relocs, |m.definedFuncs|).Panicked?
    decreases |sections|
  {
    if sections != [] {
      var init := sections[..|sections| - 1];
      var last := sections[|sections| - 1];
      assert sections == init + [last];
      OutputPanics(init, m, args, all, relocs);
    }
  }

  /** A written section of some kind exists exactly when the input had that section (a start
      section also needs an entry for its function). */
  lemma OutputHasSection(sections: seq<Section>, m: Module, args: Uses, all: Uses, relocs: RelocationMap, o: OutSection)
    requires OutputSpec(sections, m, args, all, relocs).Ok?
    ensures o in OutputSpec(sections, m, args, all, relocs).value ==> SourceOf(o) in sections
    ensures (exists x :: x in OutputSpec(sections, m, args, all, relocs).value && SourceOf(x) == SourceOf(o)) <==>
      SourceOf(o) in sections && !(SourceOf(o) == Standard(StartSec) && StartSection(m.startIdx, relocs).None?)
  {
    var out := OutputSpec(sections, m, args, all, relocs).value;
    OutputKeepsOrder(sections, m, args, all, relocs);
    SourcesOfMembers(out, SourceOf(o));
    WritingSectionsMembers(sections, m.startIdx, relocs, SourceOf(o));
    if o in out {
      SourcesOfMembers(out, SourceOf(o));
    }
  }

  lemma {:induction false} SourcesOfMembers(out: seq<OutSection>, s: Section)
    ensures s in SourcesOf(out) <==> exists x :: x in out && SourceOf(x) == s
    decreases |out|
  {
    if out != [] {
      var init := out[..|out| - 1];
      var last := out[|out| - 1];
      assert out == init + [last];
      SourcesOfMembers(init, s);
    }
  }

  lemma {:induction false} WritingSectionsMembers(sections: seq<Section>, startIdx: Option<u32>, relocs: RelocationMap, s: Section)
    ensures s in WritingSections(sections, startIdx, relocs) <==>
      s in sections && !(s == Standard(StartSec) && StartSection(startIdx, relocs).None?)
    decreases |sections|
  {
    if sections != [] {
      var init := sections[..|sections| - 1];
      var last := sections[|sections| - 1];
      assert sections == init + [last];
      WritingSectionsMembers(init, startIdx, relocs, s);
    }
  }

  /** One recorded section writes an export section exactly when it is the export section,
      and what it writes there is the kept exports followed by the `isolated_…` exports. */
  lemma WrittenExports(s: Section, m: Module, args: Uses, all: Uses, relocs: RelocationMap)
    requires Written(s, m, args, all, relocs).Ok?
    ensures forall o :: o in Written(s, m, args, all, relocs).value && o.ExportOut? ==>
      o.exports == ExportSectionSpec(m.exports, args, relocs)
    ensures (exists o :: o in Written(s, m, args, all, relocs).value && o.ExportOut?) <==> s == Standard(ExportSec)
  {
    hide TypeSectionSpec, ImportSectionSpec, FunctionSectionSpec, TableSectionSpec, MemorySectionSpec, GlobalSectionSpec,
      ExportSectionSpec, StartSection, ElementSectionSpec, CodeSectionSpec, DataSectionSpec, DataCount, TagSectionSpec;
    if s == Standard(ExportSec) {
      assert ExportOut(ExportSectionSpec(m.exports, args, relocs)) in Written(s, m, args, all, relocs).value;
    }
  }

  /** Every written export section is the kept exports followed by the `isolated_…` exports,
      and one is written exactly when the input had an export section. */
  lemma {:induction false} ExportSectionWritten(sections: seq<Section>, m: Module, args: Uses, all: Uses,
      relocs: RelocationMap)
    requires OutputSpec(sections, m, args, all, relocs).Ok?
    ensures forall o :: o in OutputSpec(sections, m, args, all, relocs).value && o.ExportOut? ==>
      o.exports == ExportSectionSpec(m.exports, args, relocs)
    ensures (exists o :: o in OutputSpec(sections, m, args, all, relocs).value && o.ExportOut?) <==>
      Standard(ExportSec) in sections
    decreases |sections|
  {
    if sections != [] {
      var init := sections[..|sections| - 1];
      var last := sections[|sections| - 1];
      assert OutputSpec(sections, m, args, all, relocs).value ==
        OutputSpec(init, m, args, all, relocs).value + Written(last, m, args, all, relocs).value;
      assert sections == init + [last];
      hide OutputSpec, Written;
      ExportSectionWritten(init, m, args, all, relocs);
      WrittenExports(last, m, args, all, relocs);
    }
  }

  /** The `isolated_func_<idx>` export of a requested function with an entry is written exactly
      when the input had an export section: without one, no `isolated_…` export appears. */
  lemma IsolatedFuncExportWritten(sections: seq<Section>, m: Module, args: Uses, all: Uses, relocs: RelocationMap, f: u32)
    requires OutputSpec(sections, m, args, all, relocs).Ok?
    requires f in args.liveFuncs && Key(Funcs, f) in relocs
    ensures (exists o :: o in OutputSpec(sections, m, args, all, relocs).value && o.ExportOut? &&
               Export("isolated_func_" + Decimal(f), FuncExport, relocs[Key(Funcs, f)]) in o.exports) <==>
      Standard(ExportSec) in sections
  {
    var e := Export("isolated_func_" + Decimal(f), FuncExport, relocs[Key(Funcs, f)]);
    var out := OutputSpec(sections, m, args, all, relocs).value;
    ExportSectionWritten(sections, m, args, all, relocs);
    IsolatedExportsExactly(args.liveFuncs, relocs, Funcs, FuncExport, "isolated_func_", e);
    assert e in ExportSectionSpec(m.exports, args, relocs);
  }
}
