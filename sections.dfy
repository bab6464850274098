// The output pass of src/main.rs: which entries of each section survive, and with which indices.
// An entry of a defined item survives when the relocation table has an entry for its index;
// imports and code bodies are checked against the live lists directly. Re-encoding the entries
// themselves is the encoder's business and is not modelled: kept entries are passed through.

module Sections {
  import opened Base
  import opened LiveUses
  import opened OperatorUses
  import opened WasmModule
  import opened Relocations
  import opened ItemUses
  import opened Worklist
  import opened Renumber

  // ---------------------------------------------------------------------------
  // Selecting entries by index
  // ---------------------------------------------------------------------------

  /** `relocations.get(&Relocation::…(i)).is_some()`. */
  predicate Relocated(relocs: RelocationMap, k: Kind, i: nat) {
    i < U32_LIMIT && Key(k, i) in relocs
  }

  /** The entries `xs[j]` whose index `base + j` has an entry of kind `k`, in order. */
  function KeptFrom<T>(xs: seq<T>, relocs: RelocationMap, k: Kind, base: nat): seq<T>
    decreases |xs|
  {
    if xs == [] then []
    else
      var j := |xs| - 1;
      KeptFrom(xs[..j], relocs, k, base) + (if Relocated(relocs, k, base + j) then [xs[j]] else [])
  }

  /** The entries `xs[j]` whose index `base + j` is in `live`, in order. */
  function KeptLive<T>(xs: seq<T>, live: seq<u32>, base: nat): seq<T>
    decreases |xs|
  {
    if xs == [] then []
    else
      var j := |xs| - 1;
      KeptLive(xs[..j], live, base) + (if base + j in live then [xs[j]] else [])
  }

  /** The indices in `[from, from + n)` that have an entry of kind `k`, ascending. */
  function RelocatedRange(relocs: RelocationMap, k: Kind, from: nat, n: nat): seq<nat>
    decreases n
  {
    if n == 0 then []
    else RelocatedRange(relocs, k, from, n - 1) + (if Relocated(relocs, k, from + n - 1) then [from + n - 1] else [])
  }

  lemma {:induction false} RelocatedRangeHas(relocs: RelocationMap, k: Kind, from: nat, n: nat, x: nat)
    ensures x in RelocatedRange(relocs, k, from, n) <==> from <= x < from + n && Relocated(relocs, k, x)
    decreases n
  {
    if n > 0 {
      RelocatedRangeHas(relocs, k, from, n - 1, x);
    }
  }

  /** The indices below `n` that are in `live`, ascending. */
  function LiveBelow(live: seq<u32>, n: nat): (r: seq<u32>)
    ensures forall x :: x in r <==> x < n && x in live
    decreases n
  {
    if n == 0 then []
    else if n - 1 in live then
      var x: u32 := n - 1;
      LiveBelow(live, n - 1) + [x]
    else LiveBelow(live, n - 1)
  }

  /** A `for (i, x) in xs.iter().enumerate()` loop keeping `x` when index `base + i` has an entry
      of kind `k`. */
  method EmitKept<T>(xs: seq<T>, relocs: RelocationMap, k: Kind, base: nat) returns (r: seq<T>)
    ensures r == KeptFrom(xs, relocs, k, base)
  {
    r := [];
    assert xs[..0] == [];
    for j := 0 to |xs|
      invariant r == KeptFrom(xs[..j], relocs, k, base)
    {
      assert xs[..j + 1][..j] == xs[..j];
      if base + j < U32_LIMIT && Key(k, base + j) in relocs {
        r := r + [xs[j]];
      }
    }
    assert xs[..|xs|] == xs;
  }

  /** With the table built from the live lists, selecting by table entry and selecting by
      liveness keep the same entries. */
  lemma {:induction false} KeptFromLive<T>(xs: seq<T>, all: Uses, k: Kind, base: nat)
    ensures KeptFrom(xs, RelocationTable(all), k, base) == KeptLive(xs, all.Of(k), base)
    decreases |xs|
  {
    if xs != [] {
      var j := |xs| - 1;
      KeptFromLive(xs[..j], all, k, base);
      if base + j < U32_LIMIT {
        RelocationTableHas(all, k, base + j);
      }
    }
  }

  /** Selecting `xs` by liveness keeps as many entries as there are live indices in its range. */
  lemma {:induction false} KeptLiveCount<T>(xs: seq<T>, live: seq<u32>, base: nat)
    ensures |LiveBelow(live, base)| + |KeptLive(xs, live, base)| == |LiveBelow(live, base + |xs|)|
    decreases |xs|
  {
    if xs != [] {
      KeptLiveCount(xs[..|xs| - 1], live, base);
    }
  }

  /** For an ascending list, the live indices below `n` are a prefix of the list, and the next
      entry, if any, is at least `n`. */
  lemma {:induction false} LiveBelowPrefix(s: seq<u32>, n: nat)
    requires Ascending(s)
    ensures |LiveBelow(s, n)| <= |s| && LiveBelow(s, n) == s[..|LiveBelow(s, n)|]
    ensures |LiveBelow(s, n)| < |s| ==> s[|LiveBelow(s, n)|] >= n
    decreases n
  {
    if n > 0 {
      LiveBelowPrefix(s, n - 1);
      var c := |LiveBelow(s, n - 1)|;
      if n - 1 in s {
        var j :| 0 <= j < |s| && s[j] == n - 1;
        assert j == c;
        assert s[..c + 1] == s[..c] + [s[c]];
        if c + 1 < |s| {
          assert s[c] < s[c + 1];
        }
      }
    }
  }

  /** The `t`-th live index below `n` of an ascending list is entry `t` of the list, so the
      relocation table moves it to `t`. */
  lemma LiveBelowRenumbered(all: Uses, k: Kind, n: nat, t: nat)
    requires Normal(all) && t < |LiveBelow(all.Of(k), n)|
    ensures Lookup(RelocationTable(all), k, LiveBelow(all.Of(k), n)[t]) == t
  {
    LiveBelowPrefix(all.Of(k), n);
    RenumberDense(all, k, t);
  }

  /** When every live index is below `n`, all of them are. */
  lemma LiveBelowEverything(s: seq<u32>, n: nat)
    requires Ascending(s) && forall x :: x in s ==> x < n
    ensures |LiveBelow(s, n)| == |s|
  {
    LiveBelowPrefix(s, n);
    var c := |LiveBelow(s, n)|;
    assert forall i | 0 <= i < |s| :: s[i] in s;
  }

  lemma {:induction false} LiveBelowShort(live: seq<u32>, n: nat)
    ensures |LiveBelow(live, n)| <= n
    decreases n
  {
    if n > 0 {
      LiveBelowShort(live, n - 1);
    }
  }

  lemma LiveBelowStep(live: seq<u32>, n: nat)
    ensures |LiveBelow(live, n + 1)| == |LiveBelow(live, n)| + (if n in live then 1 else 0)
  {
  }

  // ---------------------------------------------------------------------------
  // Type section
  // ---------------------------------------------------------------------------

  /** A kept recursion group: a lone subtype, or a `rec` group of the kept subtypes. The entries
      are the old type indices. */
  datatype TypeEntry = SubType(index: nat) | Rec(indices: seq<nat>)

  function TotalSize(groups: seq<RecGroup>): nat
    decreases |groups|
  {
    if groups == [] then 0 else TotalSize(groups[..|groups| - 1]) + groups[|groups| - 1].size
  }

  /** What one group becomes, given its kept subtypes. */
  function GroupEntry(kept: seq<nat>, explicit: bool): seq<TypeEntry> {
    if |kept| == 1 then [SubType(kept[0])]
    else if |kept| > 1 || explicit then [Rec(kept)]
    else []
  }

  function TypeSectionSpec(groups: seq<RecGroup>, relocs: RelocationMap): seq<TypeEntry>
    decreases |groups|
  {
    if groups == [] then []
    else
      var init := groups[..|groups| - 1];
      var g := groups[|groups| - 1];
      TypeSectionSpec(init, relocs) + GroupEntry(RelocatedRange(relocs, Types, TotalSize(init), g.size), g.explicit)
  }

  /** The old indices the entries hold, in order. */
  function Flatten(entries: seq<TypeEntry>): seq<nat>
    decreases |entries|
  {
    if entries == [] then []
    else
      var e := entries[|entries| - 1];
      Flatten(entries[..|entries| - 1]) + (if e.SubType? then [e.index] else e.indices)
  }

  /** One group: the running index steps over every subtype, kept or not. */
  method EmitGroup(relocs: RelocationMap, idx0: nat, g: RecGroup) returns (entry: seq<TypeEntry>, idx: nat)
    ensures entry == GroupEntry(RelocatedRange(relocs, Types, idx0, g.size), g.explicit)
    ensures idx == idx0 + g.size
  {
    var subTypes: seq<nat> := [];
    idx := idx0;
    for i := 0 to g.size
      invariant idx == idx0 + i
      invariant subTypes == RelocatedRange(relocs, Types, idx0, i)
    {
      if idx < U32_LIMIT && Type(idx) in relocs {
        subTypes := subTypes + [idx];
      }
      idx := idx + 1;
    }
    if |subTypes| == 1 {
      entry := [SubType(subTypes[0])];
    } else if |subTypes| > 1 || g.explicit {
      entry := [Rec(subTypes)];
    } else {
      entry := [];
    }
  }

  method EmitTypeSection(groups: seq<RecGroup>, relocs: RelocationMap) returns (r: seq<TypeEntry>)
    ensures r == TypeSectionSpec(groups, relocs)
  {
    r := [];
    var idx: nat := 0;
    assert groups[..0] == [];
    for i := 0 to |groups|
      invariant idx == TotalSize(groups[..i])
      invariant r == TypeSectionSpec(groups[..i], relocs)
    {
      assert groups[..i + 1][..i] == groups[..i];
      var entry;
      entry, idx := EmitGroup(relocs, idx, groups[i]);
      r := r + entry;
    }
    assert groups[..|groups|] == groups;
  }

  lemma {:induction false} RelocatedRangeSplit(relocs: RelocationMap, k: Kind, from: nat, a: nat, b: nat)
    ensures RelocatedRange(relocs, k, from, a + b) ==
      RelocatedRange(relocs, k, from, a) + RelocatedRange(relocs, k, from + a, b)
    decreases b
  {
    if b > 0 {
      RelocatedRangeSplit(relocs, k, from, a, b - 1);
    }
  }

  /** The type section holds every relocated type index exactly once, in ascending order, and a
      group is dropped only when none of its subtypes is kept and it was not an explicit `rec`
      group. */
  lemma {:induction false} TypeSectionKeepsRelocated(groups: seq<RecGroup>, relocs: RelocationMap)
    ensures Flatten(TypeSectionSpec(groups, relocs)) == RelocatedRange(relocs, Types, 0, TotalSize(groups))
    decreases |groups|
  {
    hide *;
    TypeSectionBasics(relocs);
    if groups != [] {
      var init := groups[..|groups| - 1];
      var g := groups[|groups| - 1];
      var kept := RelocatedRange(relocs, Types, TotalSize(init), g.size);
      var entry := GroupEntry(kept, g.explicit);
      var prev := TypeSectionSpec(init, relocs);
      TypeSectionSnoc(groups, relocs);
      GroupEntryFlatten(kept, g.explicit);
      TypeSectionKeepsRelocated(init, relocs);
      RelocatedRangeSplit(relocs, Types, 0, TotalSize(init), g.size);
      FlattenConcat(prev, entry);
    }
  }

  lemma TypeSectionBasics(relocs: RelocationMap)
    ensures Flatten(TypeSectionSpec([], relocs)) == [] == RelocatedRange(relocs, Types, 0, TotalSize([]))
  {
  }

  lemma TypeSectionSnoc(groups: seq<RecGroup>, relocs: RelocationMap)
    requires groups != []
    ensures var init := groups[..|groups| - 1];
      var g := groups[|groups| - 1];
      && TotalSize(groups) == TotalSize(init) + g.size
      && TypeSectionSpec(groups, relocs) ==
        TypeSectionSpec(init, relocs) + GroupEntry(RelocatedRange(relocs, Types, TotalSize(init), g.size), g.explicit)
  {
  }

  /** A group's entry holds exactly its kept subtypes. */
  lemma GroupEntryFlatten(kept: seq<nat>, explicit: bool)
    ensures Flatten(GroupEntry(kept, explicit)) == kept && |GroupEntry(kept, explicit)| <= 1
  {
    var entry := GroupEntry(kept, explicit);
    if |kept| == 1 {
      assert [kept[0]] == kept;
    }
    if entry != [] {
      assert entry[..0] == [];
    }
  }

  lemma {:induction false} FlattenConcat(a: seq<TypeEntry>, b: seq<TypeEntry>)
    requires |b| <= 1
    ensures Flatten(a + b) == Flatten(a) + Flatten(b)
  {
    if b != [] {
      assert (a + b)[..|a + b| - 1] == a;
      assert b[..0] == [];
    } else {
      assert a + b == a;
    }
  }

  /** Every entry of the type section is non-empty unless it comes from an explicit `rec`
      group. */
  lemma {:induction false} TypeEntriesNonEmpty(groups: seq<RecGroup>, relocs: RelocationMap, e: TypeEntry)
    requires e in TypeSectionSpec(groups, relocs) && e.Rec? && e.indices == []
    ensures exists g :: g in groups && g.explicit
    decreases |groups|
  {
    var init := groups[..|groups| - 1];
    var g := groups[|groups| - 1];
    if e in TypeSectionSpec(init, relocs) {
      TypeEntriesNonEmpty(init, relocs, e);
      var g' :| g' in init && g'.explicit;
      assert g' in groups;
    } else {
      assert g.explicit;
    }
  }

  // ---------------------------------------------------------------------------
  // Import section
  // ---------------------------------------------------------------------------

  function ImportKind(ty: TypeRef): Kind {
    match ty
    case FuncImport(_) => Funcs
    case TableImport(_) => Tables
    case MemoryImport => Memories
    case GlobalImport(_) => Globals
    case TagImport(_) => Tags
  }

  /** How many of `imports` are of kind `k`: the `num_imported_…` counter after them. */
  function ImportCount(imports: seq<Import>, k: Kind): nat
    decreases |imports|
  {
    if imports == [] then 0
    else ImportCount(imports[..|imports| - 1], k) + (if ImportKind(imports[|imports| - 1].ty) == k then 1 else 0)
  }

  /** A kept import; a function import's type index goes through the table. */
  function ReencodeImport(relocs: RelocationMap, imp: Import): Import {
    match imp.ty
    case FuncImport(t) => imp.(ty := FuncImport(TypeIndex(relocs, t)))
    case _ => imp
  }

  /** An import is kept when its ordinal among the imports of its kind is live. */
  function ImportSectionSpec(imports: seq<Import>, all: Uses, relocs: RelocationMap): seq<Import>
    decreases |imports|
  {
    if imports == [] then []
    else
      var init := imports[..|imports| - 1];
      var imp := imports[|imports| - 1];
      var k := ImportKind(imp.ty);
      ImportSectionSpec(init, all, relocs) + (if ImportCount(init, k) in all.Of(k) then [ReencodeImport(relocs, imp)] else [])
  }

  /** One import more: the counter of its kind advances, and it is kept when the counter was
      live before. */
  lemma ImportSnoc(imports: seq<Import>, i: nat, all: Uses, relocs: RelocationMap)
    requires i < |imports|
    ensures forall k ::
      ImportCount(imports[..i + 1], k) == ImportCount(imports[..i], k) + (if ImportKind(imports[i].ty) == k then 1 else 0)
    ensures ImportSectionSpec(imports[..i + 1], all, relocs) == ImportSectionSpec(imports[..i], all, relocs) +
      (if ImportCount(imports[..i], ImportKind(imports[i].ty)) in all.Of(ImportKind(imports[i].ty))
       then [ReencodeImport(relocs, imports[i])] else [])
  {
    assert imports[..i + 1][..i] == imports[..i];
  }

  method EmitImportSection(imports: seq<Import>, all: Uses, relocs: RelocationMap) returns (r: seq<Import>)
    ensures r == ImportSectionSpec(imports, all, relocs)
  {
    r := [];
    var numFuncs: nat, numTables: nat, numMemories: nat, numGlobals: nat, numTags: nat := 0, 0, 0, 0, 0;
    assert imports[..0] == [];
    hide ImportCount, ImportSectionSpec, TypeIndex;
    ImportBasics(all, relocs);
    for i := 0 to |imports|
      invariant r == ImportSectionSpec(imports[..i], all, relocs)
      invariant numFuncs == ImportCount(imports[..i], Funcs)
      invariant numTables == ImportCount(imports[..i], Tables)
      invariant numMemories == ImportCount(imports[..i], Memories)
      invariant numGlobals == ImportCount(imports[..i], Globals)
      invariant numTags == ImportCount(imports[..i], Tags)
    {
      var imp := imports[i];
      ImportSnoc(imports, i, all, relocs);
      match imp.ty {
        case FuncImport(typeIdx) =>
          if numFuncs in all.liveFuncs {
            r := r + [Import(imp.moduleName, imp.name, FuncImport(TypeIndex(relocs, typeIdx)))];
          }
          numFuncs := numFuncs + 1;
        case TableImport(_) =>
          if numTables in all.liveTables {
            r := r + [imp];
          }
          numTables := numTables + 1;
        case MemoryImport =>
          if numMemories in all.liveMemories {
            r := r + [imp];
          }
          numMemories := numMemories + 1;
        case GlobalImport(_) =>
          if numGlobals in all.liveGlobals {
            r := r + [imp];
          }
          numGlobals := numGlobals + 1;
        case TagImport(_) =>
          if numTags in all.liveTags {
            r := r + [imp];
          }
          numTags := numTags + 1;
      }
    }
    assert imports[..|imports|] == imports;
  }

  /** The imports of kind `k` that the import section keeps number exactly the live indices
      below the count of such imports; the counters advance for every import, kept or not. */
  lemma {:induction false} ImportsKeptCount(imports: seq<Import>, all: Uses, relocs: RelocationMap, k: Kind)
    ensures ImportCount(ImportSectionSpec(imports, all, relocs), k) == |LiveBelow(all.Of(k), ImportCount(imports, k))|
    decreases |imports|
  {
    hide *;
    ImportBasics(all, relocs);
    if imports != [] {
      var init := imports[..|imports| - 1];
      var imp := imports[|imports| - 1];
      var ik := ImportKind(imp.ty);
      var c := ImportCount(init, ik);
      var kept := if c in all.Of(ik) then [ReencodeImport(relocs, imp)] else [];
      var prev := ImportSectionSpec(init, all, relocs);
      ImportSnoc(imports, |imports| - 1, all, relocs);
      assert imports[..|imports|] == imports;
      ImportCountSingle(ReencodeImport(relocs, imp), k);
      ReencodeKeepsKind(relocs, imp);
      ImportsKeptCount(init, all, relocs, k);
      ImportCountConcat(prev, kept, k);
      LiveBelowStep(all.Of(k), ImportCount(init, k));
      if c !in all.Of(ik) {
        assert ImportCount(kept, k) == 0;
      }
    }
  }

  lemma ImportBasics(all: Uses, relocs: RelocationMap)
    ensures ImportSectionSpec([], all, relocs) == []
    ensures forall k :: ImportCount([], k) == 0 && LiveBelow(all.Of(k), 0) == []
  {
  }

  lemma ReencodeKeepsKind(relocs: RelocationMap, imp: Import)
    ensures ImportKind(ReencodeImport(relocs, imp).ty) == ImportKind(imp.ty)
  {
  }

  /** A single import counts for its own kind. */
  lemma ImportCountSingle(imp: Import, k: Kind)
    ensures ImportCount([imp], k) == if ImportKind(imp.ty) == k then 1 else 0
  {
    assert [imp][..0] == [];
  }

  lemma {:induction false} ImportCountConcat(a: seq<Import>, b: seq<Import>, k: Kind)
    requires |b| <= 1
    ensures ImportCount(a + b, k) == ImportCount(a, k) + ImportCount(b, k)
  {
    if b != [] {
      assert (a + b)[..|a + b| - 1] == a;
      assert b[..0] == [];
    } else {
      assert a + b == a;
    }
  }

  /** The kept imports of kind `k` land at new indices `0, 1, …` in order: the `t`-th live
      imported index is renumbered to `t`. */
  lemma ImportsLandInOrder(imports: seq<Import>, all: Uses, k: Kind, t: nat)
    requires Normal(all) && t < |LiveBelow(all.Of(k), ImportCount(imports, k))|
    ensures Lookup(RelocationTable(all), k, LiveBelow(all.Of(k), ImportCount(imports, k))[t]) == t
  {
    LiveBelowRenumbered(all, k, ImportCount(imports, k), t);
  }

  // ---------------------------------------------------------------------------
  // Function and code sections
  // ---------------------------------------------------------------------------

  /** The function section: the relocated type of every defined function whose index has an
      entry; indexing past the function types panics. */
  function FunctionSectionSpec(m: Module, relocs: RelocationMap, n: nat): Result<seq<u32>>
    requires n <= |m.definedFuncs|
    decreases n
  {
    if n == 0 then Ok([])
    else
      match FunctionSectionSpec(m, relocs, n - 1)
      case Panicked => Panicked
      case Ok(prev) =>
        var idx := m.numImportedFunctions + (n - 1);
        if !Relocated(relocs, Funcs, idx) then Ok(prev)
        else if idx >= |m.funcTypes| then Panicked
        else Ok(prev + [TypeIndex(relocs, m.funcTypes[idx])])
  }

  method EmitFunctionSection(m: Module, relocs: RelocationMap) returns (r: Result<seq<u32>>)
    ensures r == FunctionSectionSpec(m, relocs, |m.definedFuncs|)
  {
    var entries: seq<u32> := [];
    for i := 0 to |m.definedFuncs|
      invariant FunctionSectionSpec(m, relocs, i) == Ok(entries)
    {
      var idx := m.numImportedFunctions + i;
      if idx < U32_LIMIT && Relocation.Func(idx) in relocs {
        if idx >= |m.funcTypes| {
          assert FunctionSectionSpec(m, relocs, i + 1) == Panicked;
          PanicPersists(m, relocs, i + 1, |m.definedFuncs|);
          return Panicked;
        }
        entries := entries + [TypeIndex(relocs, m.funcTypes[idx])];
      }
    }
    r := Ok(entries);
  }

  lemma {:induction false} PanicPersists(m: Module, relocs: RelocationMap, i: nat, n: nat)
    requires i <= n <= |m.definedFuncs| && FunctionSectionSpec(m, relocs, i) == Panicked
    ensures FunctionSectionSpec(m, relocs, n) == Panicked
    decreases n - i
  {
    if i < n {
      PanicPersists(m, relocs, i + 1, n);
    }
  }

  /** The code section: the bodies of the defined functions whose index is live. */
  function CodeSectionSpec(m: Module, all: Uses): seq<Func> {
    KeptLive(m.definedFuncs, all.liveFuncs, m.numImportedFunctions)
  }

  method EmitCodeSection(m: Module, all: Uses) returns (r: seq<Func>)
    ensures r == CodeSectionSpec(m, all)
  {
    r := [];
    var funcs := m.definedFuncs;
    assert funcs[..0] == [];
    for i := 0 to |funcs|
      invariant r == KeptLive(funcs[..i], all.liveFuncs, m.numImportedFunctions)
    {
      assert funcs[..i + 1][..i] == funcs[..i];
      if m.numImportedFunctions + i in all.liveFuncs {
        r := r + [funcs[i]];
      }
    }
    assert funcs[..|funcs|] == funcs;
  }

  /** The defined functions carry the types of their entries of the function types, as the
      code-section reader builds them. */
  predicate FuncTypesAgree(m: Module) {
    forall i :: 0 <= i < |m.definedFuncs| ==>
      m.numImportedFunctions + i < |m.funcTypes| && m.funcTypes[m.numImportedFunctions + i] == m.definedFuncs[i].typeIdx
  }

  function TypesOf(funcs: seq<Func>, relocs: RelocationMap): (r: seq<u32>)
    ensures |r| == |funcs| && forall i :: 0 <= i < |funcs| ==> r[i] == TypeIndex(relocs, funcs[i].typeIdx)
  {
    seq(|funcs|, i requires 0 <= i < |funcs| => TypeIndex(relocs, funcs[i].typeIdx))
  }

  lemma {:induction false} FunctionMatchesCodePrefix(m: Module, all: Uses, n: nat)
    requires FuncTypesAgree(m) && n <= |m.definedFuncs|
    ensures FunctionSectionSpec(m, RelocationTable(all), n) ==
      Ok(TypesOf(KeptLive(m.definedFuncs[..n], all.liveFuncs, m.numImportedFunctions), RelocationTable(all)))
    decreases n
  {
    hide RelocationTable, TypeIndex, TypesOf;
    var relocs := RelocationTable(all);
    var base := m.numImportedFunctions;
    if n == 0 {
      assert m.definedFuncs[..0] == [];
    } else {
      FunctionMatchesCodePrefix(m, all, n - 1);
      assert m.definedFuncs[..n][..n - 1] == m.definedFuncs[..n - 1];
      var idx := base + (n - 1);
      if idx < U32_LIMIT {
        RelocationTableHas(all, Funcs, idx);
      }
      var prev := KeptLive(m.definedFuncs[..n - 1], all.liveFuncs, base);
      if idx in all.liveFuncs {
        assert Relocated(relocs, Funcs, idx);
        assert idx < |m.funcTypes| && m.funcTypes[idx] == m.definedFuncs[n - 1].typeIdx;
        assert KeptLive(m.definedFuncs[..n], all.liveFuncs, base) == prev + [m.definedFuncs[n - 1]];
        assert TypesOf(prev + [m.definedFuncs[n - 1]], relocs) == TypesOf(prev, relocs) + [TypeIndex(relocs, m.funcTypes[idx])];
      } else {
        assert !Relocated(relocs, Funcs, idx);
        assert KeptLive(m.definedFuncs[..n], all.liveFuncs, base) == prev;
      }
    }
  }

  /** With the table built from the live lists, the function section and the code section keep
      the same functions in the same order: entry `t` of the function section is the relocated
      type of body `t` of the code section. */
  lemma FunctionMatchesCode(m: Module, all: Uses)
    requires FuncTypesAgree(m)
    ensures FunctionSectionSpec(m, RelocationTable(all), |m.definedFuncs|) ==
      Ok(TypesOf(CodeSectionSpec(m, all), RelocationTable(all)))
  {
    FunctionMatchesCodePrefix(m, all, |m.definedFuncs|);
    assert m.definedFuncs[..|m.definedFuncs|] == m.definedFuncs;
  }

  // ---------------------------------------------------------------------------
  // Table, memory, global, tag, element and data sections
  // ---------------------------------------------------------------------------

  function TableSectionSpec(m: Module, relocs: RelocationMap): seq<DefinedTable> {
    KeptFrom(m.definedTables, relocs, Tables, m.numImportedTables)
  }

  function GlobalSectionSpec(m: Module, relocs: RelocationMap): seq<DefinedGlobal> {
    KeptFrom(m.definedGlobals, relocs, Globals, m.numImportedGlobals)
  }

  /** The defined memories that are kept, by old index. */
  function MemorySectionSpec(m: Module, relocs: RelocationMap): seq<nat> {
    if m.numImportedMemories as nat >= m.memoryTypes then []
    else RelocatedRange(relocs, Memories, m.numImportedMemories as nat, m.memoryTypes - m.numImportedMemories as nat)
  }

  function TagSectionSpec(m: Module, relocs: RelocationMap): seq<TagType> {
    if m.numImportedTags as nat >= |m.tagTypes| then []
    else KeptFrom(m.tagTypes[m.numImportedTags..], relocs, Tags, m.numImportedTags as nat)
  }

  /** Kept element segments; an active segment's table index is passed through as it was. */
  function ElementSectionSpec(m: Module, relocs: RelocationMap): seq<ElementSegment> {
    KeptFrom(m.elems, relocs, Elems, 0)
  }

  /** Kept data segments; an active segment's memory index is passed through as it was. */
  function DataSectionSpec(m: Module, relocs: RelocationMap): seq<DataSegment> {
    KeptFrom(m.datas, relocs, Datas, 0)
  }

  method EmitTableSection(m: Module, relocs: RelocationMap) returns (r: seq<DefinedTable>)
    ensures r == TableSectionSpec(m, relocs)
  {
    r := EmitKept(m.definedTables, relocs, Tables, m.numImportedTables as nat);
  }

  method EmitGlobalSection(m: Module, relocs: RelocationMap) returns (r: seq<DefinedGlobal>)
    ensures r == GlobalSectionSpec(m, relocs)
  {
    r := EmitKept(m.definedGlobals, relocs, Globals, m.numImportedGlobals as nat);
  }

  method EmitMemorySection(m: Module, relocs: RelocationMap) returns (r: seq<nat>)
    ensures r == MemorySectionSpec(m, relocs)
  {
    r := [];
    var idx: nat := m.numImportedMemories as nat;
    if idx >= m.memoryTypes {
      return;
    }
    while idx < m.memoryTypes
      invariant m.numImportedMemories as nat <= idx <= m.memoryTypes
      invariant r == RelocatedRange(relocs, Memories, m.numImportedMemories as nat, idx - m.numImportedMemories as nat)
    {
      if idx < U32_LIMIT && Memory(idx) in relocs {
        r := r + [idx];
      }
      idx := idx + 1;
    }
  }

  method EmitTagSection(m: Module, relocs: RelocationMap) returns (r: seq<TagType>)
    ensures r == TagSectionSpec(m, relocs)
  {
    if m.numImportedTags as nat >= |m.tagTypes| {
      return [];
    }
    r := EmitKept(m.tagTypes[m.numImportedTags..], relocs, Tags, m.numImportedTags as nat);
  }

  method EmitElementSection(m: Module, relocs: RelocationMap) returns (r: seq<ElementSegment>)
    ensures r == ElementSectionSpec(m, relocs)
  {
    r := EmitKept(m.elems, relocs, Elems, 0);
  }

  method EmitDataSection(m: Module, relocs: RelocationMap) returns (r: seq<DataSegment>)
    ensures r == DataSectionSpec(m, relocs)
  {
    r := EmitKept(m.datas, relocs, Datas, 0);
  }

  /** The data count section: the number of live data segments, as a `u32`. */
  function DataCount(all: Uses): u32 {
    TruncU32(|all.liveDatas|)
  }

  lemma LiveDatasExist(m: Module, all: Uses)
    requires Closed(m, all)
    ensures forall x :: x in all.liveDatas ==> x < |m.datas|
  {
    forall x | x in all.liveDatas
      ensures x < |m.datas|
    {
      ItemOkInRange(m, WorkItem(Datas, x));
    }
  }

  /** After a successful liveness pass, the data count agrees with the data section: every live
      data segment exists, so all of them are kept. */
  lemma DataCountMatches(m: Module, all: Uses)
    requires Normal(all) && Closed(m, all) && |m.datas| < U32_LIMIT
    ensures DataCount(all) as nat == |DataSectionSpec(m, RelocationTable(all))| == |all.liveDatas|
  {
    var s := all.Of(Datas);
    LiveDatasExist(m, all);
    hide Closed, ItemUsesOf, RelocationTable, KeptFrom, KeptLive, LiveBelow;
    LiveBelowEverything(s, |m.datas|);
    LiveBelowShort(s, |m.datas|);
    KeptFromLive(m.datas, all, Datas, 0);
    KeptLiveCount(m.datas, s, 0);
  }

  // ---------------------------------------------------------------------------
  // Export and start sections
  // ---------------------------------------------------------------------------

  function ExportKindOf(k: ExternalKind): Kind {
    match k
    case FuncExport => Funcs
    case TableExport => Tables
    case MemoryExport => Memories
    case GlobalExport => Globals
    case TagExport => Tags
  }

  /** The module's own exports whose target has an entry, pointing at the new index. */
  function KeptExports(exports: seq<Export>, relocs: RelocationMap): seq<Export>
    decreases |exports|
  {
    if exports == [] then []
    else
      var e := exports[|exports| - 1];
      var key := Key(ExportKindOf(e.kind), e.index);
      KeptExports(exports[..|exports| - 1], relocs) + (if key in relocs then [e.(index := relocs[key])] else [])
  }

  /** The `isolated_…_<idx>` exports of the requested indices of kind `k` that have an entry. */
  function IsolatedExports(idxs: seq<u32>, relocs: RelocationMap, k: Kind, ek: ExternalKind, prefix: string): seq<Export>
    decreases |idxs|
  {
    if idxs == [] then []
    else
      var idx := idxs[|idxs| - 1];
      IsolatedExports(idxs[..|idxs| - 1], relocs, k, ek, prefix) +
        (if Key(k, idx) in relocs then [Export(prefix + Decimal(idx), ek, relocs[Key(k, idx)])] else [])
  }

  function ExportSectionSpec(exports: seq<Export>, args: Uses, relocs: RelocationMap): seq<Export> {
    KeptExports(exports, relocs)
      + IsolatedExports(args.liveFuncs, relocs, Funcs, FuncExport, "isolated_func_")
      + IsolatedExports(args.liveTables, relocs, Tables, TableExport, "isolated_table_")
      + IsolatedExports(args.liveGlobals, relocs, Globals, GlobalExport, "isolated_global_")
      + IsolatedExports(args.liveMemories, relocs, Memories, MemoryExport, "isolated_memory_")
      + IsolatedExports(args.liveTags, relocs, Tags, TagExport, "isolated_tag_")
  }

  method EmitKeptExports(exports: seq<Export>, relocs: RelocationMap) returns (r: seq<Export>)
    ensures r == KeptExports(exports, relocs)
  {
    r := [];
    assert exports[..0] == [];
    for i := 0 to |exports|
      invariant r == KeptExports(exports[..i], relocs)
    {
      assert exports[..i + 1][..i] == exports[..i];
      var e := exports[i];
      var reloc := Key(ExportKindOf(e.kind), e.index);
      if reloc in relocs {
        r := r + [Export(e.name, e.kind, relocs[reloc])];
      }
    }
    assert exports[..|exports|] == exports;
  }

  method EmitIsolatedExports(r0: seq<Export>, idxs: seq<u32>, relocs: RelocationMap, k: Kind, ek: ExternalKind, prefix: string)
    returns (r: seq<Export>)
    ensures r == r0 + IsolatedExports(idxs, relocs, k, ek, prefix)
  {
    r := r0;
    assert idxs[..0] == [];
    for i := 0 to |idxs|
      invariant r == r0 + IsolatedExports(idxs[..i], relocs, k, ek, prefix)
    {
      assert idxs[..i + 1][..i] == idxs[..i];
      if Key(k, idxs[i]) in relocs {
        r := r + [Export(prefix + Decimal(idxs[i]), ek, relocs[Key(k, idxs[i])])];
      }
    }
    assert idxs[..|idxs|] == idxs;
  }

  method EmitExportSection(exports: seq<Export>, args: Uses, relocs: RelocationMap) returns (r: seq<Export>)
    ensures r == ExportSectionSpec(exports, args, relocs)
  {
    r := EmitKeptExports(exports, relocs);
    r := EmitIsolatedExports(r, args.liveFuncs, relocs, Funcs, FuncExport, "isolated_func_");
    r := EmitIsolatedExports(r, args.liveTables, relocs, Tables, TableExport, "isolated_table_");
    r := EmitIsolatedExports(r, args.liveGlobals, relocs, Globals, GlobalExport, "isolated_global_");
    r := EmitIsolatedExports(r, args.liveMemories, relocs, Memories, MemoryExport, "isolated_memory_");
    r := EmitIsolatedExports(r, args.liveTags, relocs, Tags, TagExport, "isolated_tag_");
  }

  /** An original export survives exactly when its target has an entry, and then it points at
      the target's new index under its old name. */
  lemma {:induction false} KeptExportsExactly(exports: seq<Export>, relocs: RelocationMap, e: Export)
    ensures e in KeptExports(exports, relocs) <==>
      (exists x :: x in exports && Key(ExportKindOf(x.kind), x.index) in relocs &&
        e == x.(index := relocs[Key(ExportKindOf(x.kind), x.index)]))
    decreases |exports|
  {
    if exports != [] {
      var init := exports[..|exports| - 1];
      var last := exports[|exports| - 1];
      assert exports == init + [last];
      KeptExportsExactly(init, relocs, e);
    }
  }

  /** An `isolated_…` export exists exactly for each requested index with an entry, and its name
      gives back the index. */
  lemma {:induction false} IsolatedExportsExactly(idxs: seq<u32>, relocs: RelocationMap, k: Kind, ek: ExternalKind,
      prefix: string, e: Export)
    ensures e in IsolatedExports(idxs, relocs, k, ek, prefix) <==>
      (exists idx :: idx in idxs && Key(k, idx) in relocs &&
        e == Export(prefix + Decimal(idx), ek, relocs[Key(k, idx)]))
    decreases |idxs|
  {
    if idxs != [] {
      var init := idxs[..|idxs| - 1];
      var last := idxs[|idxs| - 1];
      assert idxs == init + [last];
      IsolatedExportsExactly(init, relocs, k, ek, prefix, e);
    }
  }

  /** Two `isolated_…` exports of the same kind have different names unless they are for the
      same index. */
  lemma IsolatedNamesDistinct(prefix: string, a: u32, b: u32)
    requires a != b
    ensures prefix + Decimal(a) != prefix + Decimal(b)
  {
    DecimalInjective(a, b);
    assert (prefix + Decimal(a))[|prefix|..] == Decimal(a);
    assert (prefix + Decimal(b))[|prefix|..] == Decimal(b);
  }

  /** The start section: the relocated start function, when it has an entry. */
  function StartSection(startIdx: Option<u32>, relocs: RelocationMap): (r: Option<u32>)
    ensures r.Some? <==> startIdx.Some? && Relocation.Func(startIdx.value) in relocs
    ensures r.Some? ==> r.value == FunctionIndex(relocs, startIdx.value)
  {
    match startIdx
    case None => None
    case Some(idx) => if Relocation.Func(idx) in relocs then Some(relocs[Relocation.Func(idx)]) else None
  }

  /** With the table built from the live lists, the start section survives exactly when the
      start function is live, and names its position among the live functions. */
  lemma StartSurvives(startIdx: u32, all: Uses)
    requires Normal(all)
    ensures StartSection(Some(startIdx), RelocationTable(all)).Some? <==> startIdx in all.liveFuncs
    ensures startIdx in all.liveFuncs ==>
      StartSection(Some(startIdx), RelocationTable(all)).value < |all.liveFuncs|
  {
    RelocationTableHas(all, Funcs, startIdx);
    if startIdx in all.liveFuncs {
      RenumberBelowLength(all, Funcs, startIdx);
    }
  }
}
