// What one live item of a module refers to (the `match work` of src/main.rs): the item itself,
// its type, and for a defined item its body, initialiser or segment contents. Indexing past the
// end of one of the module's lists panics, as the Rust indexing does.

module ItemUses {
  import opened Base
  import opened LiveUses
  import opened OperatorUses
  import opened WasmModule

  /** `WorkItem`: an item of one of the eight index spaces, by its index. */
  datatype WorkItem = WorkItem(kind: Kind, index: u32)

  /** The uses of each operator of a sequence, in order. */
  function InstrUsesList(ops: seq<Operator>): (r: seq<Uses>)
    ensures |r| == |ops| && forall i :: 0 <= i < |ops| ==> r[i] == InstrUses(ops[i])
  {
    seq(|ops|, i requires 0 <= i < |ops| => InstrUses(ops[i]))
  }

  /** The uses of a constant expression: those of its operators, merged. */
  function ConstExprUses(e: ConstExpr): Uses {
    AllSpec(InstrUsesList(e))
  }

  /** The uses of each expression of an element segment, in order. */
  function ConstExprUsesList(es: seq<ConstExpr>): seq<Uses> {
    seq(|es|, i requires 0 <= i < |es| => ConstExprUses(es[i]))
  }

  /** The uses of the types of a function's local declarations. */
  function LocalUsesList(locals: seq<(u32, ValType)>): (r: seq<Uses>)
    ensures |r| == |locals| && forall i :: 0 <= i < |locals| ==> r[i] == ValTypeUses(locals[i].1)
  {
    seq(|locals|, i requires 0 <= i < |locals| => ValTypeUses(locals[i].1))
  }

  /** One `single_func` per function index of an element segment. */
  function FuncUsesList(funcs: seq<u32>): (r: seq<Uses>)
    ensures |r| == |funcs| && forall i :: 0 <= i < |funcs| ==> r[i] == Single(Funcs, funcs[i])
  {
    seq(|funcs|, i requires 0 <= i < |funcs| => Single(Funcs, funcs[i]))
  }

  // ---------------------------------------------------------------------------
  // The values merged for each kind of item, in the order the Rust code merges them
  // ---------------------------------------------------------------------------

  function TypeParts(m: Module, idx: u32): Result<seq<Uses>> {
    if idx as int >= |m.types| then Panicked
    else Ok([Single(Types, idx), TypeUses(m.types[idx])])
  }

  function FuncParts(m: Module, idx: u32): Result<seq<Uses>> {
    if idx as int >= |m.funcTypes| then Panicked
    else
      var imported := [Single(Funcs, idx), Single(Types, m.funcTypes[idx])];
      if idx < m.numImportedFunctions then Ok(imported)
      else if (idx - m.numImportedFunctions) as int >= |m.definedFuncs| then Panicked
      else
        var f := m.definedFuncs[idx - m.numImportedFunctions];
        Ok(imported + [Single(Types, f.typeIdx)] + LocalUsesList(f.locals) + InstrUsesList(f.instructions))
  }

  function TableParts(m: Module, idx: u32): Result<seq<Uses>> {
    if idx as int >= |m.tableTypes| then Panicked
    else
      var imported := [Single(Tables, idx), TableTypeUses(m.tableTypes[idx])];
      if idx < m.numImportedTables then Ok(imported)
      else if (idx - m.numImportedTables) as int >= |m.definedTables| then Panicked
      else
        match m.definedTables[idx - m.numImportedTables].init
        case RefNull => Ok(imported)
        case InitExpr(e) => Ok(imported + [ConstExprUses(e)])
  }

  function GlobalParts(m: Module, idx: u32): Result<seq<Uses>> {
    if idx as int >= |m.globalTypes| then Panicked
    else
      var imported := [Single(Globals, idx), GlobalTypeUses(m.globalTypes[idx])];
      if idx < m.numImportedGlobals then Ok(imported)
      else if (idx - m.numImportedGlobals) as int >= |m.definedGlobals| then Panicked
      else Ok(imported + [ConstExprUses(m.definedGlobals[idx - m.numImportedGlobals].initExpr)])
  }

  function DataParts(m: Module, idx: u32): Result<seq<Uses>> {
    if idx as int >= |m.datas| then Panicked
    else
      match m.datas[idx].kind
      case PassiveData => Ok([Single(Datas, idx)])
      case ActiveData(mem, offset) => Ok([Single(Datas, idx), Single(Memories, mem), ConstExprUses(offset)])
  }

  /** The uses of an element segment's kind: the table it initialises (table 0 when none is
      given) and its offset expression. */
  function ElemKindParts(kind: ElementKind): seq<Uses> {
    match kind
    case PassiveElem => []
    case DeclaredElem => []
    case ActiveElem(table, offset) =>
      [Single(Tables, if table.Some? then table.value else 0), ConstExprUses(offset)]
  }

  function ElemItemsParts(items: ElementItems): seq<Uses> {
    match items
    case Functions(funcs) => FuncUsesList(funcs)
    case Expressions(rt, exprs) => [RefTypeUses(rt)] + ConstExprUsesList(exprs)
  }

  function ElemParts(m: Module, idx: u32): Result<seq<Uses>> {
    if idx as int >= |m.elems| then Panicked
    else Ok([Single(Elems, idx)] + ElemKindParts(m.elems[idx].kind) + ElemItemsParts(m.elems[idx].items))
  }

  function TagParts(m: Module, idx: u32): Result<seq<Uses>> {
    if idx as int >= |m.tagTypes| then Panicked
    else Ok([Single(Tags, idx), TagTypeUses(m.tagTypes[idx])])
  }

  /** The values merged for `item`; a memory is only itself, whatever its index. */
  function ItemParts(m: Module, item: WorkItem): Result<seq<Uses>> {
    match item.kind
    case Types => TypeParts(m, item.index)
    case Funcs => FuncParts(m, item.index)
    case Tables => TableParts(m, item.index)
    case Globals => GlobalParts(m, item.index)
    case Memories => Ok([Single(Memories, item.index)])
    case Datas => DataParts(m, item.index)
    case Elems => ElemParts(m, item.index)
    case Tags => TagParts(m, item.index)
  }

  function Fold(parts: Result<seq<Uses>>): Result<Uses> {
    match parts
    case Ok(us) => Ok(AllSpec(us))
    case Panicked => Panicked
  }

  /** `new_uses` for `item`: the merge of its parts. */
  function ItemUsesOf(m: Module, item: WorkItem): Result<Uses> {
    Fold(ItemParts(m, item))
  }

  /** Starting from `single_…` is starting the fold from the default value. */
  lemma SingleFold(k: Kind, idx: u32)
    ensures AllSpec([Single(k, idx)]) == Single(k, idx)
  {
    hide Merged;
    var s := Single(k, idx);
    assert [s][..0] == [];
    assert AllSpec([s]) == Merged(Default, s);
    forall j
      ensures Members(Merged(Default, s).Of(j)) == Members(s.Of(j))
    {
      EmptyMembers(Default.Of(j));
    }
    NormalEqual(Merged(Default, s), s);
  }

  lemma {:induction false} UnionOfHas(us: seq<Uses>, j: nat, k: Kind)
    requires j < |us|
    ensures Members(us[j].Of(k)) <= UnionOf(us, k)
    decreases |us|
  {
    if j < |us| - 1 {
      UnionOfHas(us[..|us| - 1], j, k);
    }
  }

  /** Every item that does not panic uses itself: `new_uses` always holds the item's own index,
      so processing an item makes it live. */
  lemma SelfUse(m: Module, item: WorkItem)
    requires ItemUsesOf(m, item).Ok?
    ensures item.index in ItemUsesOf(m, item).value.Of(item.kind)
  {
    hide Merged, AllSpec, TypeUses, InstrUsesList, ConstExprUses, LocalUsesList, FuncUsesList,
      ConstExprUsesList, TableTypeUses, GlobalTypeUses, TagTypeUses, RefTypeUses;
    var parts := ItemParts(m, item).value;
    assert parts[0] == Single(item.kind, item.index) by {
      match item.kind
      case Types =>
      case Funcs =>
      case Tables =>
      case Globals =>
      case Memories =>
      case Datas =>
      case Elems =>
      case Tags =>
    }
    AllUnion(parts, item.kind);
    UnionOfHas(parts, 0, item.kind);
    assert item.index in Members(parts[0].Of(item.kind));
    assert ItemUsesOf(m, item).value == AllSpec(parts);
    assert item.index in Members(AllSpec(parts).Of(item.kind));
  }

  /** An item other than a memory is processed without a panic only when its index is below the
      count of its kind; types, data segments, element segments and tags panic exactly when it is
      not. */
  lemma ItemOkInRange(m: Module, item: WorkItem)
    ensures ItemUsesOf(m, item).Ok? && item.kind != Memories ==> item.index < Count(m, item.kind)
    ensures item.kind in {Types, Datas, Elems, Tags} ==>
      (ItemUsesOf(m, item).Ok? <==> item.index < Count(m, item.kind))
    ensures item.kind == Memories ==> ItemUsesOf(m, item).Ok?
  {
    hide Merged, AllSpec, TypeUses, InstrUsesList, ConstExprUses, LocalUsesList, FuncUsesList,
      ConstExprUsesList, TableTypeUses, GlobalTypeUses, TagTypeUses, RefTypeUses;
  }

  // ---------------------------------------------------------------------------
  // The loops that compute them
  // ---------------------------------------------------------------------------

  /** The `for instr in …` loop: merges the uses of each operator of `ops` into `r0`, the fold
      so far over `done`. */
  method MergeInstrs(r0: Uses, ghost done: seq<Uses>, ops: seq<Operator>) returns (r: Uses)
    requires r0 == AllSpec(done)
    ensures r == AllSpec(done + InstrUsesList(ops))
  {
    hide Merged, AllSpec, InstrUses;
    r := r0;
    assert ops[..0] == [] && done + InstrUsesList([]) == done;
    for i := 0 to |ops|
      invariant r == AllSpec(done + InstrUsesList(ops[..i]))
    {
      var u := GetInstrUses(ops[i]);
      AllSnoc(done + InstrUsesList(ops[..i]), u);
      assert done + InstrUsesList(ops[..i + 1]) == done + InstrUsesList(ops[..i]) + [u];
      r := Merge(r, u);
    }
    assert ops[..|ops|] == ops;
  }

  /** Starts `res` at `single_…(idx)` and merges `u` into it. */
  method SingleAnd(k: Kind, idx: u32, u: Uses) returns (r: Uses)
    ensures r == AllSpec([Single(k, idx), u])
  {
    hide Merged, AllSpec;
    r := Single(k, idx);
    SingleFold(k, idx);
    AllSnoc([Single(k, idx)], u);
    assert [Single(k, idx)] + [u] == [Single(k, idx), u];
    r := Merge(r, u);
  }

  method FuncItemUses(m: Module, idx: u32) returns (r: Result<Uses>)
    ensures r == Fold(FuncParts(m, idx))
  {
    hide Merged, AllSpec;
    if idx as int >= |m.funcTypes| {
      return Panicked;
    }
    ghost var done := [Single(Funcs, idx), Single(Types, m.funcTypes[idx])];
    var res := SingleAnd(Funcs, idx, Single(Types, m.funcTypes[idx]));
    if idx < m.numImportedFunctions {
      return Ok(res);
    }
    if (idx - m.numImportedFunctions) as int >= |m.definedFuncs| {
      return Panicked;
    }
    var f := m.definedFuncs[idx - m.numImportedFunctions];
    res := MergeEach(res, done, [Single(Types, f.typeIdx)]);
    done := done + [Single(Types, f.typeIdx)];
    res := MergeEach(res, done, LocalUsesList(f.locals));
    done := done + LocalUsesList(f.locals);
    res := MergeInstrs(res, done, f.instructions);
    r := Ok(res);
  }

  method TableItemUses(m: Module, idx: u32) returns (r: Result<Uses>)
    ensures r == Fold(TableParts(m, idx))
  {
    hide Merged, AllSpec;
    if idx as int >= |m.tableTypes| {
      return Panicked;
    }
    var res := SingleAnd(Tables, idx, TableTypeUses(m.tableTypes[idx]));
    if idx >= m.numImportedTables {
      if (idx - m.numImportedTables) as int >= |m.definedTables| {
        return Panicked;
      }
      var table := m.definedTables[idx - m.numImportedTables];
      if table.init.InitExpr? {
        res := MergeEach(res, [Single(Tables, idx), TableTypeUses(m.tableTypes[idx])], [ConstExprUses(table.init.expr)]);
      }
    }
    r := Ok(res);
  }

  method GlobalItemUses(m: Module, idx: u32) returns (r: Result<Uses>)
    ensures r == Fold(GlobalParts(m, idx))
  {
    hide Merged, AllSpec;
    if idx as int >= |m.globalTypes| {
      return Panicked;
    }
    var res := SingleAnd(Globals, idx, GlobalTypeUses(m.globalTypes[idx]));
    if idx >= m.numImportedGlobals {
      if (idx - m.numImportedGlobals) as int >= |m.definedGlobals| {
        return Panicked;
      }
      var global := m.definedGlobals[idx - m.numImportedGlobals];
      res := MergeEach(res, [Single(Globals, idx), GlobalTypeUses(m.globalTypes[idx])], [ConstExprUses(global.initExpr)]);
    }
    r := Ok(res);
  }

  method DataItemUses(m: Module, idx: u32) returns (r: Result<Uses>)
    ensures r == Fold(DataParts(m, idx))
  {
    hide Merged, AllSpec;
    if idx as int >= |m.datas| {
      return Panicked;
    }
    var res := Single(Datas, idx);
    SingleFold(Datas, idx);
    match m.datas[idx].kind {
      case PassiveData =>
      case ActiveData(mem, offset) =>
        res := MergeEach(res, [Single(Datas, idx)], [Single(Memories, mem), ConstExprUses(offset)]);
        assert [Single(Datas, idx)] + [Single(Memories, mem), ConstExprUses(offset)]
          == [Single(Datas, idx), Single(Memories, mem), ConstExprUses(offset)];
    }
    r := Ok(res);
  }

  method ElemItemUses(m: Module, idx: u32) returns (r: Result<Uses>)
    ensures r == Fold(ElemParts(m, idx))
  {
    hide Merged, AllSpec;
    if idx as int >= |m.elems| {
      return Panicked;
    }
    var res := Single(Elems, idx);
    SingleFold(Elems, idx);
    var elem := m.elems[idx];
    ghost var done := [Single(Elems, idx)];
    match elem.kind {
      case PassiveElem =>
        assert done + ElemKindParts(elem.kind) == done;
      case DeclaredElem =>
        assert done + ElemKindParts(elem.kind) == done;
      case ActiveElem(table, offset) =>
        var tableIndex := if table.Some? then table.value else 0;
        res := MergeEach(res, done, [Single(Tables, tableIndex), ConstExprUses(offset)]);
        assert ElemKindParts(elem.kind) == [Single(Tables, tableIndex), ConstExprUses(offset)];
    }
    done := done + ElemKindParts(elem.kind);
    match elem.items {
      case Functions(funcs) =>
        res := MergeEach(res, done, FuncUsesList(funcs));
      case Expressions(rt, exprs) =>
        res := MergeEach(res, done, [RefTypeUses(rt)]);
        done := done + [RefTypeUses(rt)];
        res := MergeEach(res, done, ConstExprUsesList(exprs));
        assert done + ConstExprUsesList(exprs) == [Single(Elems, idx)] + ElemKindParts(elem.kind) + ElemItemsParts(elem.items);
    }
    r := Ok(res);
  }

  /** `new_uses` for `item`. */
  method ComputeItemUses(m: Module, item: WorkItem) returns (r: Result<Uses>)
    ensures r == ItemUsesOf(m, item)
  {
    hide Merged, AllSpec;
    var idx := item.index;
    match item.kind {
      case Types =>
        if idx as int >= |m.types| {
          return Panicked;
        }
        var t := GetTypeUses(m.types[idx]);
        var res := SingleAnd(Types, idx, t);
        r := Ok(res);
      case Funcs =>
        r := FuncItemUses(m, idx);
      case Tables =>
        r := TableItemUses(m, idx);
      case Globals =>
        r := GlobalItemUses(m, idx);
      case Memories =>
        SingleFold(Memories, idx);
        r := Ok(Single(Memories, idx));
      case Datas =>
        r := DataItemUses(m, idx);
      case Elems =>
        r := ElemItemUses(m, idx);
      case Tags =>
        if idx as int >= |m.tagTypes| {
          return Panicked;
        }
        var res := SingleAnd(Tags, idx, TagTypeUses(m.tagTypes[idx]));
        r := Ok(res);
    }
  }
}
