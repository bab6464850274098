// Properties of the index lists of src/uses.rs: which kinds of item a type or an instruction can
// keep alive, and the shape of the lists `get_instr_uses` builds.

module UsesProperties {
  import opened Base
  import opened LiveUses
  import opened OperatorUses

  /** The one index a single-index value lists, whatever its kind. */
  lemma SingleOnly(k: Kind, idx: u32, j: Kind)
    ensures Members(Single(k, idx).Of(j)) == if j == k then {idx} else {}
  {
  }

  /** `all` of nothing is the empty value. */
  lemma AllOfNothing()
    ensures AllSpec([]) == Default
    ensures forall k :: Default.Of(k) == []
  {
  }

  lemma UnionOfSnoc(us: seq<Uses>, u: Uses, k: Kind)
    ensures UnionOf(us + [u], k) == UnionOf(us, k) + Members(u.Of(k))
  {
    hide Merged;
    assert (us + [u])[..|us|] == us;
  }

  // ---------------------------------------------------------------------------
  // Types refer only to types
  // ---------------------------------------------------------------------------

  /** The module types a list of value types names: the index of every concrete reference. */
  function ValTypeIndices(vs: seq<ValType>): set<u32> {
    set i | 0 <= i < |vs| && vs[i].Ref? && vs[i].refType.heapType.Concrete? ::
      vs[i].refType.heapType.index
  }

  /** The module types a list of field types names. */
  function FieldTypeIndices(fs: seq<FieldType>): set<u32> {
    set i | 0 <= i < |fs| && fs[i].elementType.Val? && fs[i].elementType.valType.Ref?
        && fs[i].elementType.valType.refType.heapType.Concrete? ::
      fs[i].elementType.valType.refType.heapType.index
  }

  lemma ValTypeIndicesSnoc(vs: seq<ValType>)
    requires vs != []
    ensures ValTypeIndices(vs)
      == ValTypeIndices(vs[..|vs| - 1]) + Members(ValTypeUses(vs[|vs| - 1]).Of(Types))
    ensures ValTypeUsesList(vs) == ValTypeUsesList(vs[..|vs| - 1]) + [ValTypeUses(vs[|vs| - 1])]
  {
    var n := |vs| - 1;
    forall t
      ensures t in ValTypeIndices(vs) <==> t in ValTypeIndices(vs[..n]) + Members(ValTypeUses(vs[n]).Of(Types))
    {
      if t in ValTypeIndices(vs) {
        var i :| 0 <= i < |vs| && vs[i].Ref? && vs[i].refType.heapType.Concrete?
          && vs[i].refType.heapType.index == t;
        if i < n {
          assert vs[..n][i] == vs[i];
        }
      }
      if t in ValTypeIndices(vs[..n]) {
        var i :| 0 <= i < n && vs[..n][i].Ref? && vs[..n][i].refType.heapType.Concrete?
          && vs[..n][i].refType.heapType.index == t;
        assert vs[i] == vs[..n][i];
      }
    }
  }

  lemma {:induction false} ValTypesUnion(vs: seq<ValType>, k: Kind)
    ensures UnionOf(ValTypeUsesList(vs), k) == if k == Types then ValTypeIndices(vs) else {}
    decreases |vs|
  {
    if vs != [] {
      var n := |vs| - 1;
      ValTypesUnion(vs[..n], k);
      ValTypeIndicesSnoc(vs);
      hide ValTypeIndices, ValTypeUsesList, UnionOf, Merged;
      UnionOfSnoc(ValTypeUsesList(vs[..n]), ValTypeUses(vs[n]), k);
    }
  }

  lemma FieldTypeIndicesSnoc(fs: seq<FieldType>)
    requires fs != []
    ensures FieldTypeIndices(fs)
      == FieldTypeIndices(fs[..|fs| - 1]) + Members(FieldTypeUses(fs[|fs| - 1]).Of(Types))
    ensures FieldTypeUsesList(fs) == FieldTypeUsesList(fs[..|fs| - 1]) + [FieldTypeUses(fs[|fs| - 1])]
  {
    var n := |fs| - 1;
    forall t
      ensures t in FieldTypeIndices(fs) <==> t in FieldTypeIndices(fs[..n]) + Members(FieldTypeUses(fs[n]).Of(Types))
    {
      if t in FieldTypeIndices(fs) {
        var i :| 0 <= i < |fs| && fs[i].elementType.Val? && fs[i].elementType.valType.Ref?
          && fs[i].elementType.valType.refType.heapType.Concrete?
          && fs[i].elementType.valType.refType.heapType.index == t;
        if i < n {
          assert fs[..n][i] == fs[i];
        }
      }
      if t in FieldTypeIndices(fs[..n]) {
        var i :| 0 <= i < n && fs[..n][i].elementType.Val? && fs[..n][i].elementType.valType.Ref?
          && fs[..n][i].elementType.valType.refType.heapType.Concrete?
          && fs[..n][i].elementType.valType.refType.heapType.index == t;
        assert fs[i] == fs[..n][i];
      }
    }
  }

  lemma {:induction false} FieldTypesUnion(fs: seq<FieldType>, k: Kind)
    ensures UnionOf(FieldTypeUsesList(fs), k) == if k == Types then FieldTypeIndices(fs) else {}
    decreases |fs|
  {
    if fs != [] {
      var n := |fs| - 1;
      FieldTypesUnion(fs[..n], k);
      FieldTypeIndicesSnoc(fs);
      hide FieldTypeIndices, FieldTypeUsesList, UnionOf, Merged;
      UnionOfSnoc(FieldTypeUsesList(fs[..n]), FieldTypeUses(fs[n]), k);
    }
  }

  /** A function type keeps alive exactly the types its parameters and results name, as an
      ascending list, and nothing of any other kind. */
  lemma FuncTypeUsesTypes(ty: FuncType)
    ensures Normal(FuncTypeUses(ty))
    ensures Members(FuncTypeUses(ty).Of(Types)) == ValTypeIndices(ty.params + ty.results)
    ensures forall k :: k != Types ==> FuncTypeUses(ty).Of(k) == []
  {
    hide Merged;
    var us := ValTypeUsesList(ty.params + ty.results);
    forall k
      ensures Ascending(FuncTypeUses(ty).Of(k))
      ensures Members(FuncTypeUses(ty).Of(k)) == if k == Types then ValTypeIndices(ty.params + ty.results) else {}
    {
      AllUnion(us, k);
      ValTypesUnion(ty.params + ty.results, k);
    }
    forall k | k != Types
      ensures FuncTypeUses(ty).Of(k) == []
    {
      EmptyMembers(FuncTypeUses(ty).Of(k));
    }
  }

  /** A struct type keeps alive exactly the types its fields name, and nothing else. */
  lemma StructTypeUsesTypes(ty: StructType)
    ensures Normal(StructTypeUses(ty))
    ensures Members(StructTypeUses(ty).Of(Types)) == FieldTypeIndices(ty.fields)
    ensures forall k :: k != Types ==> StructTypeUses(ty).Of(k) == []
  {
    hide Merged;
    var us := FieldTypeUsesList(ty.fields);
    forall k
      ensures Ascending(StructTypeUses(ty).Of(k))
      ensures Members(StructTypeUses(ty).Of(k)) == if k == Types then FieldTypeIndices(ty.fields) else {}
    {
      AllUnion(us, k);
      FieldTypesUnion(ty.fields, k);
    }
    forall k | k != Types
      ensures StructTypeUses(ty).Of(k) == []
    {
      EmptyMembers(StructTypeUses(ty).Of(k));
    }
  }

  /** Every type definition keeps alive only other types, and at most the one an array names. */
  lemma TypeUsesOnlyTypes(ty: CompositeInnerType)
    ensures forall k :: k != Types ==> TypeUses(ty).Of(k) == []
    ensures ty.ArrayComposite? ==> |TypeUses(ty).Of(Types)| <= 1
  {
    match ty
    case FuncComposite(f) => FuncTypeUsesTypes(f);
    case ArrayComposite(a) =>
    case StructComposite(s) => StructTypeUsesTypes(s);
  }

  /** A heap type keeps a type alive exactly when it is concrete, and then only that type. */
  lemma HeapTypeUsesIff(h: HeapType, t: u32)
    ensures HeapTypeUses(h) == Default <==> h.Abstract?
    ensures HeapTypeUses(h).Of(Types) == [t] <==> h == Concrete(t)
    ensures forall k :: k != Types ==> HeapTypeUses(h).Of(k) == []
  {
    if h.Concrete? {
      assert HeapTypeUses(h).Of(Types) == [h.index];
    }
  }

  /** A block type keeps a type alive exactly when it names a function type or a concrete
      reference; the empty block type keeps nothing. */
  lemma BlockTypeUsesIff(bt: BlockType, t: u32)
    ensures BlockTypeUses(bt).Of(Types) == [t] <==>
      bt == FuncTypeIndex(t) || bt == Value(Ref(RefType(true, Concrete(t))))
        || bt == Value(Ref(RefType(false, Concrete(t))))
    ensures bt == Empty ==> BlockTypeUses(bt) == Default
    ensures forall k :: k != Types ==> BlockTypeUses(bt).Of(k) == []
  {
    if bt.Value? && bt.valType.Ref? {
      HeapTypeUsesIff(bt.valType.refType.heapType, t);
    }
  }

  // ---------------------------------------------------------------------------
  // Instructions
  // ---------------------------------------------------------------------------

  /** The operators whose uses are only types and tags: those that carry a block type, a heap
      type, a value type, a type index or a tag. */
  predicate TypeOrTagOnly(op: Operator) {
    op.Block? || op.Loop? || op.If? || op.Try? || op.HeapTypeOp? || op.TypedSelect?
    || op.BrOnCast? || op.BrOnCastFail? || op.TryTableOp? || op.TypeOp? || op.Throw? || op.CatchOp?
  }

  /** The operators that carry only a block type, a heap type, a value type or a type index
      keep nothing but types alive. */
  lemma TypeOnlyUses(op: Operator)
    requires op.Block? || op.Loop? || op.If? || op.Try? || op.HeapTypeOp? || op.TypedSelect? || op.TypeOp?
    ensures forall k :: k != Types ==> InstrUses(op).Of(k) == []
  {
    hide Merged, AllSpec, Pair, MemArgUses, RefTypeUses, CatchUsesList;
    if op.Block? || op.Loop? || op.If? || op.Try? {
      BlockTypeUsesIff(op.blockty, 0);
    } else if op.HeapTypeOp? {
      HeapTypeUsesIff(op.hty, 0);
    } else if op.TypedSelect? {
      BlockTypeUsesIff(Value(op.ty), 0);
    }
  }

  /** `br_on_cast` and `br_on_cast_fail` keep nothing but the types of their two reference
      types alive. */
  lemma BrOnCastOnlyTypes(op: Operator)
    requires op.BrOnCast? || op.BrOnCastFail?
    ensures forall k :: k != Types ==> InstrUses(op).Of(k) == []
  {
    hide Merged, AllSpec, RefTypeUses;
    BrOnCastUses(op.fromRefType, op.toRefType);
  }

  /** The operators whose uses are only types and tags: those that carry a block type, a heap
      type, a value type, a type index or a tag. */
  lemma TypeOrTagOnlyUses(op: Operator)
    ensures TypeOrTagOnly(op) ==> forall k :: k != Types && k != Tags ==> InstrUses(op).Of(k) == []
  {
    if op.Throw? || op.CatchOp? {
      assert InstrUses(op) == Single(Tags, op.tagIndex);
    } else if op.TryTableOp? {
      TryTableUses(op.tryTable);
    } else if op.BrOnCast? || op.BrOnCastFail? {
      hide InstrUses;
      BrOnCastOnlyTypes(op);
    } else if TypeOrTagOnly(op) {
      hide InstrUses;
      TypeOnlyUses(op);
    }
  }

  /** Only `call`, `return_call` and `ref.func` keep a function alive, and each exactly the
      function it names (`single_func`). */
  lemma InstrFuncUses(op: Operator)
    ensures InstrUses(op).Of(Funcs) != [] <==> op.Call? || op.ReturnCall? || op.RefFunc?
    ensures op.Call? || op.ReturnCall? || op.RefFunc? ==> InstrUses(op) == Single(Funcs, op.functionIndex)
  {
    TypeOrTagOnlyUses(op);
    hide Merged;
  }

  /** `call_indirect` and `return_call_indirect` keep their type and their table alive. */
  lemma CallIndirectUses(t: u32, tb: u32)
    ensures InstrUses(CallIndirect(t, tb)).Of(Types) == [t]
    ensures InstrUses(CallIndirect(t, tb)).Of(Tables) == [tb]
    ensures forall k :: k != Types && k != Tables ==> InstrUses(CallIndirect(t, tb)).Of(k) == []
    ensures InstrUses(ReturnCallIndirect(t, tb)) == InstrUses(CallIndirect(t, tb))
  {
  }

  /** Only the operators that name a data segment keep one alive: `array.new_data`,
      `array.init_data`, `memory.init` and `data.drop`. */
  lemma InstrDataUses(op: Operator)
    ensures InstrUses(op).Of(Datas) != [] <==>
      op.ArrayNewData? || op.ArrayInitData? || op.MemoryInit? || op.DataDrop?
    ensures op.ArrayNewData? || op.ArrayInitData? ==> InstrUses(op).Of(Datas) == [op.arrayDataIndex]
    ensures op.MemoryInit? || op.DataDrop? ==> InstrUses(op).Of(Datas) == [op.dataIndex]
  {
    TypeOrTagOnlyUses(op);
    hide Merged;
  }

  /** Only the operators that name an element segment keep one alive: `array.new_elem`,
      `array.init_elem`, `table.init` and `elem.drop`. */
  lemma InstrElemUses(op: Operator)
    ensures InstrUses(op).Of(Elems) != [] <==>
      op.ArrayNewElem? || op.ArrayInitElem? || op.TableInit? || op.ElemDrop?
    ensures op.ArrayNewElem? || op.ArrayInitElem? ==> InstrUses(op).Of(Elems) == [op.arrayElemIndex]
    ensures op.TableInit? || op.ElemDrop? ==> InstrUses(op).Of(Elems) == [op.elemIndex]
  {
    TypeOrTagOnlyUses(op);
    hide Merged;
  }

  /** `br_on_cast` keeps alive the types its two reference types name, sorted, and nothing else. */
  lemma BrOnCastUses(from: RefType, to: RefType)
    ensures Normal(AllSpec([RefTypeUses(from), RefTypeUses(to)]))
    ensures Members(AllSpec([RefTypeUses(from), RefTypeUses(to)]).Of(Types))
      == ValTypeIndices([Ref(from), Ref(to)])
    ensures forall k :: k != Types ==> AllSpec([RefTypeUses(from), RefTypeUses(to)]).Of(k) == []
  {
    hide Merged;
    assert ValTypeUsesList([Ref(from), Ref(to)]) == [RefTypeUses(from), RefTypeUses(to)];
    FuncTypeUsesTypes(FuncType([Ref(from), Ref(to)], []));
    assert [Ref(from), Ref(to)] + [] == [Ref(from), Ref(to)];
  }

  /** The tags a list of catch clauses names. */
  function CatchTags(cs: seq<Catch>): set<u32> {
    set i | 0 <= i < |cs| && (cs[i].CatchOne? || cs[i].CatchOneRef?) :: cs[i].tag
  }

  lemma CatchTagsSnoc(cs: seq<Catch>)
    requires cs != []
    ensures CatchTags(cs) == CatchTags(cs[..|cs| - 1]) + Members(CatchUses(cs[|cs| - 1]).Of(Tags))
    ensures CatchUsesList(cs) == CatchUsesList(cs[..|cs| - 1]) + [CatchUses(cs[|cs| - 1])]
  {
    var n := |cs| - 1;
    forall t
      ensures t in CatchTags(cs) <==> t in CatchTags(cs[..n]) + Members(CatchUses(cs[n]).Of(Tags))
    {
      if t in CatchTags(cs) {
        var i :| 0 <= i < |cs| && (cs[i].CatchOne? || cs[i].CatchOneRef?) && cs[i].tag == t;
        if i < n {
          assert cs[..n][i] == cs[i];
        }
      }
      if t in CatchTags(cs[..n]) {
        var i :| 0 <= i < n && (cs[..n][i].CatchOne? || cs[..n][i].CatchOneRef?) && cs[..n][i].tag == t;
        assert cs[i] == cs[..n][i];
      }
    }
  }

  lemma {:induction false} CatchesUnion(cs: seq<Catch>, k: Kind)
    ensures UnionOf(CatchUsesList(cs), k) == if k == Tags then CatchTags(cs) else {}
    decreases |cs|
  {
    if cs != [] {
      var n := |cs| - 1;
      CatchesUnion(cs[..n], k);
      CatchTagsSnoc(cs);
      hide CatchTags, CatchUsesList, UnionOf, Merged;
      UnionOfSnoc(CatchUsesList(cs[..n]), CatchUses(cs[n]), k);
    }
  }

  /** `try_table` keeps alive what its block type names and the tag of every catch clause that
      names one, each list ascending, and nothing of any other kind. */
  lemma TryTableUses(tt: TryTable)
    ensures Normal(InstrUses(TryTableOp(tt)))
    ensures Members(InstrUses(TryTableOp(tt)).Of(Tags)) == CatchTags(tt.catches)
    ensures Members(InstrUses(TryTableOp(tt)).Of(Types)) == Members(BlockTypeUses(tt.ty).Of(Types))
    ensures forall k :: k != Types && k != Tags ==> InstrUses(TryTableOp(tt)).Of(k) == []
  {
    var us := [BlockTypeUses(tt.ty)] + CatchUsesList(tt.catches);
    hide Merged, AllSpec;
    var r := InstrUses(TryTableOp(tt));
    assert r == AllSpec(us);
    BlockTypeUsesIff(tt.ty, 0);
    hide InstrUses, CatchTags, UnionOf, CatchUsesList, BlockTypeUses;
    forall k
      ensures Ascending(r.Of(k))
      ensures Members(r.Of(k)) ==
        Members(BlockTypeUses(tt.ty).Of(k)) + (if k == Tags then CatchTags(tt.catches) else {})
    {
      AllUnion(us, k);
      UnionPrepend(BlockTypeUses(tt.ty), CatchUsesList(tt.catches), k);
      CatchesUnion(tt.catches, k);
    }
    forall k | k != Types
      ensures Members(r.Of(k)) == if k == Tags then CatchTags(tt.catches) else {}
    {
      EmptyMembers(BlockTypeUses(tt.ty).Of(k));
    }
    forall k | k != Types && k != Tags
      ensures r.Of(k) == []
    {
      EmptyMembers(r.Of(k));
    }
  }

  lemma {:induction false} UnionPrepend(u: Uses, us: seq<Uses>, k: Kind)
    ensures UnionOf([u] + us, k) == Members(u.Of(k)) + UnionOf(us, k)
    decreases |us|
  {
    hide Merged, UnionOf;
    if us != [] {
      var n := |us| - 1;
      UnionPrepend(u, us[..n], k);
      assert us == us[..n] + [us[n]];
      assert [u] + us == ([u] + us[..n]) + [us[n]];
      UnionOfSnoc([u] + us[..n], us[n], k);
      UnionOfSnoc(us[..n], us[n], k);
    } else {
      assert [u] + us == [] + [u];
      UnionOfSnoc([], u, k);
    }
  }

  /** An operator without a module index keeps nothing alive. */
  lemma NoIndexUses()
    ensures InstrUses(NoIndex) == Default
  {
  }

  /** `get_instr_uses` does not sort or deduplicate: the copy operators list both operands in
      operand order, so a list can be out of order or repeat an index until it is merged. */
  lemma CopyListsUnsorted()
    ensures InstrUses(ArrayCopy(5, 3)).Of(Types) == [5, 3]
    ensures !Ascending(InstrUses(ArrayCopy(5, 3)).Of(Types))
    ensures InstrUses(MemoryCopy(2, 2)).Of(Memories) == [2, 2]
  {
    var copied := InstrUses(ArrayCopy(5, 3)).Of(Types);
    assert copied[0] == 5 && copied[1] == 3;
  }

  /** Merging puts the operands of the copy back in order. */
  lemma CopyListsMergedSorted()
    ensures Merged(Default, InstrUses(ArrayCopy(5, 3))).Of(Types) == [3, 5]
  {
    hide Merged;
    var u := InstrUses(ArrayCopy(5, 3));
    var copied: seq<u32> := [5, 3];
    assert u.Of(Types) == copied;
    hide InstrUses;
    var sorted: seq<u32> := [3, 5];
    assert Members(copied) == {3, 5} == Members(sorted) by {
      assert copied[0] in Members(copied) && copied[1] in Members(copied);
      assert sorted[0] in Members(sorted) && sorted[1] in Members(sorted);
    }
    assert Members(Default.Of(Types)) == {};
    AscendingUnique(Merged(Default, u).Of(Types), sorted);
  }

}
