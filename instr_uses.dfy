// What each type and each instruction of a module refers to (the `get_*_uses` functions of
// src/uses.rs). Types and operators are those of the WebAssembly binary format, as the decoder
// hands them over; operators that carry the same kind of index operands share one constructor.

module OperatorUses {
  import opened Base
  import opened LiveUses

  // ---------------------------------------------------------------------------
  // Types
  // ---------------------------------------------------------------------------

  datatype AbstractHeapType =
    | FuncHeap | ExternHeap | AnyHeap | NoneHeap | NoExternHeap | NoFuncHeap
    | EqHeap | StructHeap | ArrayHeap | I31Heap | ExnHeap | NoExnHeap

  /** A heap type: built in, or a type of this module named by its index. Concrete heap types
      that name a type of a recursion group or a canonicalised type are not handled by the
      program (they stop it) and have no constructor here. */
  datatype HeapType = Abstract(shared: bool, ty: AbstractHeapType) | Concrete(index: u32)

  datatype RefType = RefType(nullable: bool, heapType: HeapType)

  datatype ValType = I32 | I64 | F32 | F64 | V128 | Ref(refType: RefType)

  datatype StorageType = I8 | I16 | Val(valType: ValType)

  datatype FieldType = FieldType(elementType: StorageType, mutable: bool)

  datatype FuncType = FuncType(params: seq<ValType>, results: seq<ValType>)

  datatype ArrayType = ArrayType(field: FieldType)

  datatype StructType = StructType(fields: seq<FieldType>)

  /** The body of a type definition. Continuation types stop the program and are left out. */
  datatype CompositeInnerType =
    | FuncComposite(funcType: FuncType)
    | ArrayComposite(arrayType: ArrayType)
    | StructComposite(structType: StructType)

  datatype TableType = TableType(elementType: RefType)

  datatype GlobalType = GlobalType(contentType: ValType, mutable: bool)

  datatype TagType = TagType(funcTypeIdx: u32)

  datatype BlockType = Empty | Value(valType: ValType) | FuncTypeIndex(index: u32)

  datatype MemArg = MemArg(memory: u32, offset: nat, align: nat)

  datatype Catch =
    | CatchOne(tag: u32, labelDepth: u32)
    | CatchOneRef(tag: u32, labelDepth: u32)
    | CatchAll(labelDepth: u32)
    | CatchAllRef(labelDepth: u32)

  datatype TryTable = TryTable(ty: BlockType, catches: seq<Catch>)

  // ---------------------------------------------------------------------------
  // Operators
  // ---------------------------------------------------------------------------

  /** The operators, one constructor per shape of index operands. */
  datatype Operator =
      /** Every operator without a module index: control without a block type (`unreachable`,
          `br`, `return`, …), locals, constants, numeric, vector and reference tests, and the
          exception operators `rethrow`, `delegate`, `throw_ref`. */
    | NoIndex
    | Block(blockty: BlockType)
    | Loop(blockty: BlockType)
    | If(blockty: BlockType)
    | Try(blockty: BlockType)
    | Call(functionIndex: u32)
    | ReturnCall(functionIndex: u32)
    | RefFunc(functionIndex: u32)
    | CallIndirect(typeIndex: u32, tableIndex: u32)
    | ReturnCallIndirect(typeIndex: u32, tableIndex: u32)
      /** `global.get`, `global.set` and the atomic global operators. */
    | GlobalOp(globalIndex: u32)
      /** Every load, store, atomic and vector memory access with a `memarg`. */
    | MemArgOp(memarg: MemArg)
      /** `memory.size`, `memory.grow`, `memory.fill`, `memory.discard`. */
    | MemoryOp(mem: u32)
      /** The struct and array operators with one type operand (their atomic forms included),
          `call_ref` and `return_call_ref`. */
    | TypeOp(typeIndex: u32)
    | ArrayNewData(arrayTypeIndex: u32, arrayDataIndex: u32)
    | ArrayInitData(arrayTypeIndex: u32, arrayDataIndex: u32)
    | ArrayNewElem(arrayTypeIndex: u32, arrayElemIndex: u32)
    | ArrayInitElem(arrayTypeIndex: u32, arrayElemIndex: u32)
    | ArrayCopy(arrayTypeIndexDst: u32, arrayTypeIndexSrc: u32)
      /** `ref.test`, `ref.cast` (both nullabilities) and `ref.null`. */
    | HeapTypeOp(hty: HeapType)
    | BrOnCast(relativeDepth: u32, fromRefType: RefType, toRefType: RefType)
    | BrOnCastFail(relativeDepth: u32, fromRefType: RefType, toRefType: RefType)
    | MemoryInit(dataIndex: u32, mem: u32)
    | DataDrop(dataIndex: u32)
    | MemoryCopy(dstMem: u32, srcMem: u32)
    | TableInit(elemIndex: u32, table: u32)
    | ElemDrop(elemIndex: u32)
    | TableCopy(dstTable: u32, srcTable: u32)
    | TypedSelect(ty: ValType)
      /** `table.fill`, `table.get`, `table.set`, `table.grow`, `table.size` and the atomic table
          operators. */
    | TableOp(table: u32)
    | TryTableOp(tryTable: TryTable)
    | Throw(tagIndex: u32)
    | CatchOp(tagIndex: u32)

  // ---------------------------------------------------------------------------
  // Uses of types
  // ---------------------------------------------------------------------------

  function HeapTypeUses(ty: HeapType): Uses {
    match ty
    case Abstract(_, _) => Default
    case Concrete(idx) => Single(Types, idx)
  }

  function RefTypeUses(ty: RefType): Uses {
    HeapTypeUses(ty.heapType)
  }

  function ValTypeUses(ty: ValType): Uses {
    match ty
    case Ref(refType) => RefTypeUses(refType)
    case _ => Default
  }

  function StorageTypeUses(ty: StorageType): Uses {
    match ty
    case I8 | I16 => Default
    case Val(valType) => ValTypeUses(valType)
  }

  function FieldTypeUses(ty: FieldType): Uses {
    StorageTypeUses(ty.elementType)
  }

  function ArrayTypeUses(ty: ArrayType): Uses {
    FieldTypeUses(ty.field)
  }

  function TableTypeUses(ty: TableType): Uses {
    RefTypeUses(ty.elementType)
  }

  function GlobalTypeUses(ty: GlobalType): Uses {
    ValTypeUses(ty.contentType)
  }

  function TagTypeUses(ty: TagType): Uses {
    Single(Types, ty.funcTypeIdx)
  }

  function BlockTypeUses(ty: BlockType): Uses {
    match ty
    case Empty => Default
    case Value(valType) => ValTypeUses(valType)
    case FuncTypeIndex(idx) => Single(Types, idx)
  }

  function MemArgUses(memarg: MemArg): Uses {
    Single(Memories, memarg.memory)
  }

  function CatchUses(c: Catch): Uses {
    match c
    case CatchOne(tag, _) => Single(Tags, tag)
    case CatchOneRef(tag, _) => Single(Tags, tag)
    case CatchAll(_) => Default
    case CatchAllRef(_) => Default
  }

  function ValTypeUsesList(vs: seq<ValType>): (r: seq<Uses>)
    ensures |r| == |vs| && forall i :: 0 <= i < |vs| ==> r[i] == ValTypeUses(vs[i])
  {
    seq(|vs|, i requires 0 <= i < |vs| => ValTypeUses(vs[i]))
  }

  function FieldTypeUsesList(fs: seq<FieldType>): (r: seq<Uses>)
    ensures |r| == |fs| && forall i :: 0 <= i < |fs| ==> r[i] == FieldTypeUses(fs[i])
  {
    seq(|fs|, i requires 0 <= i < |fs| => FieldTypeUses(fs[i]))
  }

  function CatchUsesList(cs: seq<Catch>): (r: seq<Uses>)
    ensures |r| == |cs| && forall i :: 0 <= i < |cs| ==> r[i] == CatchUses(cs[i])
  {
    seq(|cs|, i requires 0 <= i < |cs| => CatchUses(cs[i]))
  }

  /** `get_functype_uses`: the parameters' uses, then the results', merged into nothing. */
  function FuncTypeUses(ty: FuncType): Uses {
    AllSpec(ValTypeUsesList(ty.params + ty.results))
  }

  /** `get_structtype_uses`: the fields' uses merged into nothing. */
  function StructTypeUses(ty: StructType): Uses {
    AllSpec(FieldTypeUsesList(ty.fields))
  }

  /** `get_type_uses`. */
  function TypeUses(ty: CompositeInnerType): Uses {
    match ty
    case FuncComposite(f) => FuncTypeUses(f)
    case ArrayComposite(a) => ArrayTypeUses(a)
    case StructComposite(s) => StructTypeUses(s)
  }

  /** Merging one more value into a fold is one more step of the fold. */
  lemma AllSnoc(us: seq<Uses>, u: Uses)
    ensures AllSpec(us + [u]) == Merged(AllSpec(us), u)
  {
    hide Merged;
    assert (us + [u])[..|us|] == us;
  }

  /** One `for vt in …` loop of `get_functype_uses`: merges the uses of each of `vs` into `r0`,
      the fold so far over `done`. */
  method MergeValTypes(r0: Uses, ghost done: seq<ValType>, vs: seq<ValType>) returns (r: Uses)
    requires r0 == AllSpec(ValTypeUsesList(done))
    ensures r == AllSpec(ValTypeUsesList(done + vs))
  {
    hide Merged, AllSpec, ValTypeUses;
    r := r0;
    assert done + vs[..0] == done;
    for i := 0 to |vs|
      invariant r == AllSpec(ValTypeUsesList(done + vs[..i]))
    {
      var u := ValTypeUses(vs[i]);
      AllSnoc(ValTypeUsesList(done + vs[..i]), u);
      assert done + vs[..i + 1] == done + vs[..i] + [vs[i]];
      assert ValTypeUsesList(done + vs[..i + 1]) == ValTypeUsesList(done + vs[..i]) + [u];
      r := Merge(r, u);
    }
    assert vs[..|vs|] == vs;
  }

  method GetFuncTypeUses(ty: FuncType) returns (r: Uses)
    ensures r == FuncTypeUses(ty)
  {
    var empty: seq<ValType> := [];
    assert ValTypeUsesList(empty) == [];
    r := MergeValTypes(Default, empty, ty.params);
    assert empty + ty.params == ty.params;
    r := MergeValTypes(r, ty.params, ty.results);
  }

  method GetStructTypeUses(ty: StructType) returns (r: Uses)
    ensures r == StructTypeUses(ty)
  {
    hide Merged;
    r := Default;
    for i := 0 to |ty.fields|
      invariant r == AllSpec(FieldTypeUsesList(ty.fields[..i]))
    {
      var u := FieldTypeUses(ty.fields[i]);
      AllSnoc(FieldTypeUsesList(ty.fields[..i]), u);
      assert FieldTypeUsesList(ty.fields[..i + 1]) == FieldTypeUsesList(ty.fields[..i]) + [u];
      r := Merge(r, u);
    }
    assert ty.fields[..|ty.fields|] == ty.fields;
  }

  method GetTypeUses(ty: CompositeInnerType) returns (r: Uses)
    ensures r == TypeUses(ty)
  {
    match ty
    case FuncComposite(f) => r := GetFuncTypeUses(f);
    case ArrayComposite(a) => r := ArrayTypeUses(a);
    case StructComposite(s) => r := GetStructTypeUses(s);
  }

  // ---------------------------------------------------------------------------
  // Uses of instructions
  // ---------------------------------------------------------------------------

  /** The value with `a` as its type list and `b` as its list of kind `k`. */
  function Pair(a: seq<u32>, k: Kind, b: seq<u32>): (r: Uses)
    requires k != Types
    ensures r.Of(Types) == a && r.Of(k) == b
    ensures forall j :: j != Types && j != k ==> r.Of(j) == []
  {
    match k
    case Funcs => Default.(liveTypes := a, liveFuncs := b)
    case Tables => Default.(liveTypes := a, liveTables := b)
    case Globals => Default.(liveTypes := a, liveGlobals := b)
    case Memories => Default.(liveTypes := a, liveMemories := b)
    case Datas => Default.(liveTypes := a, liveDatas := b)
    case Elems => Default.(liveTypes := a, liveElems := b)
    case Tags => Default.(liveTypes := a, liveTags := b)
  }

  /** `get_instr_uses`. The lists are those the source builds: `array.copy`, `memory.copy` and
      `table.copy` list both operands in operand order, duplicates and all. */
  function InstrUses(op: Operator): Uses {
    match op
    case NoIndex => Default
    case Block(bt) => BlockTypeUses(bt)
    case Loop(bt) => BlockTypeUses(bt)
    case If(bt) => BlockTypeUses(bt)
    case Try(bt) => BlockTypeUses(bt)
    case Call(f) => Single(Funcs, f)
    case ReturnCall(f) => Single(Funcs, f)
    case RefFunc(f) => Single(Funcs, f)
    case CallIndirect(t, tb) => Pair([t], Tables, [tb])
    case ReturnCallIndirect(t, tb) => Pair([t], Tables, [tb])
    case GlobalOp(g) => Single(Globals, g)
    case MemArgOp(m) => MemArgUses(m)
    case MemoryOp(m) => Single(Memories, m)
    case TypeOp(t) => Single(Types, t)
    case ArrayNewData(t, d) => Pair([t], Datas, [d])
    case ArrayInitData(t, d) => Pair([t], Datas, [d])
    case ArrayNewElem(t, e) => Pair([t], Elems, [e])
    case ArrayInitElem(t, e) => Pair([t], Elems, [e])
    case ArrayCopy(dst, src) => Single(Types, dst).(liveTypes := [dst, src])
    case HeapTypeOp(h) => HeapTypeUses(h)
    case BrOnCast(_, from, to) => AllSpec([RefTypeUses(from), RefTypeUses(to)])
    case BrOnCastFail(_, from, to) => AllSpec([RefTypeUses(from), RefTypeUses(to)])
    case MemoryInit(d, m) => Pair([], Datas, [d]).(liveMemories := [m])
    case DataDrop(d) => Single(Datas, d)
    case MemoryCopy(dst, src) => Single(Memories, dst).(liveMemories := [dst, src])
    case TableInit(e, tb) => Pair([], Elems, [e]).(liveTables := [tb])
    case ElemDrop(e) => Single(Elems, e)
    case TableCopy(dst, src) => Single(Tables, dst).(liveTables := [dst, src])
    case TypedSelect(ty) => ValTypeUses(ty)
    case TableOp(tb) => Single(Tables, tb)
    case TryTableOp(tt) => AllSpec([BlockTypeUses(tt.ty)] + CatchUsesList(tt.catches))
    case Throw(tag) => Single(Tags, tag)
    case CatchOp(tag) => Single(Tags, tag)
  }

  /** The `try_table` arm: the block type's uses and then each catch clause's, merged into
      nothing. */
  method GetTryTableUses(tt: TryTable) returns (r: Uses)
    ensures r == AllSpec([BlockTypeUses(tt.ty)] + CatchUsesList(tt.catches))
  {
    hide Merged, BlockTypeUses, CatchUses;
    r := Merge(Default, BlockTypeUses(tt.ty));
    assert [BlockTypeUses(tt.ty)][..0] == [];
    for i := 0 to |tt.catches|
      invariant r == AllSpec([BlockTypeUses(tt.ty)] + CatchUsesList(tt.catches[..i]))
    {
      var u := CatchUses(tt.catches[i]);
      var done := [BlockTypeUses(tt.ty)] + CatchUsesList(tt.catches[..i]);
      AllSnoc(done, u);
      assert CatchUsesList(tt.catches[..i + 1]) == CatchUsesList(tt.catches[..i]) + [u];
      assert [BlockTypeUses(tt.ty)] + CatchUsesList(tt.catches[..i + 1]) == done + [u];
      r := Merge(r, u);
    }
    assert tt.catches[..|tt.catches|] == tt.catches;
  }

  method GetInstrUses(op: Operator) returns (r: Uses)
    ensures r == InstrUses(op)
  {
    hide Merged, AllSpec, Pair, Single, BlockTypeUses, HeapTypeUses, ValTypeUses, RefTypeUses, CatchUsesList;
    match op
    case TryTableOp(tt) =>
      r := GetTryTableUses(tt);
    case BrOnCast(_, from, to) =>
      r := All([RefTypeUses(from), RefTypeUses(to)]);
    case BrOnCastFail(_, from, to) =>
      r := All([RefTypeUses(from), RefTypeUses(to)]);
    case _ =>
      r := InstrUses(op);
  }
}
