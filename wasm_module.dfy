// The module as the Rust tool collects it while reading (src/main.rs): per-kind lists of the
// entries of each index space, with the imported entries first. The decoder that fills them is
// outside the model; the lists are what its payload loop leaves behind.

module WasmModule {
  import opened Base
  import opened LiveUses
  import opened OperatorUses

  /** A constant expression, as the operators it consists of. */
  type ConstExpr = seq<Operator>

  /** A defined function: its type, its local declarations (count and type) and its body. */
  datatype Func = Func(typeIdx: u32, locals: seq<(u32, ValType)>, instructions: seq<Operator>)

  /** A function body before its type is attached. */
  datatype Body = Body(locals: seq<(u32, ValType)>, instructions: seq<Operator>)

  datatype TableInit = RefNull | InitExpr(expr: ConstExpr)

  datatype DefinedTable = DefinedTable(ty: TableType, init: TableInit)

  datatype DefinedGlobal = DefinedGlobal(ty: GlobalType, initExpr: ConstExpr)

  datatype DataKind = PassiveData | ActiveData(memoryIndex: u32, offsetExpr: ConstExpr)

  datatype DataSegment = DataSegment(kind: DataKind, bytes: seq<byte>)

  datatype ElementKind =
    | PassiveElem
    | DeclaredElem
    | ActiveElem(tableIndex: Option<u32>, offsetExpr: ConstExpr)

  datatype ElementItems = Functions(funcs: seq<u32>) | Expressions(refType: RefType, exprs: seq<ConstExpr>)

  datatype ElementSegment = ElementSegment(kind: ElementKind, items: ElementItems)

  /** What an import brings in; memory types carry no index and are left abstract. */
  datatype TypeRef =
    | FuncImport(typeIdx: u32)
    | TableImport(tableType: TableType)
    | MemoryImport
    | GlobalImport(globalType: GlobalType)
    | TagImport(tagType: TagType)

  datatype Import = Import(moduleName: string, name: string, ty: TypeRef)

  datatype ExternalKind = FuncExport | TableExport | MemoryExport | GlobalExport | TagExport

  datatype Export = Export(name: string, kind: ExternalKind, index: u32)

  /** A recursion group: how many subtypes it holds and whether the binary spelled it out as a
      `rec` group. */
  datatype RecGroup = RecGroup(size: nat, explicit: bool)

  datatype Module = Module(
    types: seq<CompositeInnerType>,
    recGroups: seq<RecGroup>,
    numImportedFunctions: u32,
    numImportedTables: u32,
    numImportedMemories: u32,
    numImportedGlobals: u32,
    numImportedTags: u32,
    funcTypes: seq<u32>,
    tableTypes: seq<TableType>,
    memoryTypes: nat,
    globalTypes: seq<GlobalType>,
    tagTypes: seq<TagType>,
    imports: seq<Import>,
    definedTables: seq<DefinedTable>,
    definedGlobals: seq<DefinedGlobal>,
    exports: seq<Export>,
    startIdx: Option<u32>,
    elems: seq<ElementSegment>,
    definedFuncs: seq<Func>,
    datas: seq<DataSegment>)

  /** How many items of kind `k` the module has, imported and defined. */
  function Count(m: Module, k: Kind): nat {
    match k
    case Types => |m.types|
    case Funcs => |m.funcTypes|
    case Tables => |m.tableTypes|
    case Globals => |m.globalTypes|
    case Memories => m.memoryTypes
    case Datas => |m.datas|
    case Elems => |m.elems|
    case Tags => |m.tagTypes|
  }

  datatype Result<T> = Ok(value: T) | Panicked

  /** The code-section entries: body `i` becomes a function whose type is entry
      `numImported + i` of the function types. Indexing past the function types panics. */
  function DefinedFuncsSpec(funcTypes: seq<u32>, numImported: nat, bodies: seq<Body>): (r: Result<seq<Func>>)
    ensures r.Ok? <==> |bodies| == 0 || numImported + |bodies| <= |funcTypes|
    ensures r.Ok? ==> |r.value| == |bodies| && forall i :: 0 <= i < |bodies| ==>
      r.value[i] == Func(funcTypes[numImported + i], bodies[i].locals, bodies[i].instructions)
  {
    if |bodies| == 0 || numImported + |bodies| <= |funcTypes| then
      Ok(seq(|bodies|, i requires 0 <= i < |bodies| =>
        Func(funcTypes[numImported + i], bodies[i].locals, bodies[i].instructions)))
    else Panicked
  }

  /** The `CodeSectionStart` / `CodeSectionEntry` handling: the counter starts at the number of
      imported functions and moves on one step before every entry but the first. */
  method CollectDefinedFuncs(funcTypes: seq<u32>, numImported: nat, bodies: seq<Body>)
    returns (r: Result<seq<Func>>)
    ensures r == DefinedFuncsSpec(funcTypes, numImported, bodies)
  {
    var currentFunc := numImported;
    var firstFunc := true;
    var funcs: seq<Func> := [];
    for i := 0 to |bodies|
      invariant |funcs| == i
      invariant firstFunc <==> i == 0
      invariant !firstFunc ==> currentFunc == numImported + i - 1
      invariant firstFunc ==> currentFunc == numImported
      invariant i > 0 ==> numImported + i <= |funcTypes|
      invariant forall j :: 0 <= j < i ==>
        funcs[j] == Func(funcTypes[numImported + j], bodies[j].locals, bodies[j].instructions)
    {
      if firstFunc {
        firstFunc := false;
      } else {
        currentFunc := currentFunc + 1;
      }
      if currentFunc >= |funcTypes| {
        assert !(numImported + |bodies| <= |funcTypes|);
        return Panicked;
      }
      funcs := funcs + [Func(funcTypes[currentFunc], bodies[i].locals, bodies[i].instructions)];
    }
    assert |bodies| == 0 || numImported + |bodies| <= |funcTypes|;
    assert funcs == DefinedFuncsSpec(funcTypes, numImported, bodies).value;
    r := Ok(funcs);
  }
}
