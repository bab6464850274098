// The relocation table and the index lookups of the re-encoder (src/relocation.rs). A relocation
// key names an item by its kind and its old index; the re-encoder only reads the table, so every
// lookup is a function of the table.

module Relocations {
  import opened Base
  import opened LiveUses

  /** `Relocation`: an item of one of the eight index spaces, by its old index. */
  datatype Relocation =
    | Type(index: u32)
    | Func(index: u32)
    | Table(index: u32)
    | Global(index: u32)
    | Memory(index: u32)
    | Data(index: u32)
    | Elem(index: u32)
    | Tag(index: u32)

  type RelocationMap = map<Relocation, u32>

  /** The key of index `i` of kind `k`. */
  function Key(k: Kind, i: u32): (r: Relocation)
    ensures r.index == i
  {
    match k
    case Types => Type(i)
    case Funcs => Func(i)
    case Tables => Table(i)
    case Globals => Global(i)
    case Memories => Memory(i)
    case Datas => Data(i)
    case Elems => Elem(i)
    case Tags => Tag(i)
  }

  /** The kind a key is tagged with. */
  function KindOf(r: Relocation): Kind {
    match r
    case Type(_) => Types
    case Func(_) => Funcs
    case Table(_) => Tables
    case Global(_) => Globals
    case Memory(_) => Memories
    case Data(_) => Datas
    case Elem(_) => Elems
    case Tag(_) => Tags
  }

  /** Keys are tagged by kind: `Func(n)` and `Type(n)` are different entries. */
  lemma KeyRoundTrip(k: Kind, i: u32, r: Relocation)
    ensures KindOf(Key(k, i)) == k && Key(KindOf(r), r.index) == r
    ensures Key(k, i) == r <==> k == KindOf(r) && i == r.index
  {
  }

  /** The new index of `i` of kind `k`: the table's entry for it, or `i` itself when the table has
      none (`unwrap_or`). The pass-through to the default `utils` lookups returns its argument. */
  function Lookup(relocations: RelocationMap, k: Kind, i: u32): (r: u32)
    ensures Key(k, i) in relocations ==> r == relocations[Key(k, i)]
    ensures Key(k, i) !in relocations ==> r == i
  {
    if Key(k, i) in relocations then relocations[Key(k, i)] else i
  }

  function DataIndex(relocations: RelocationMap, data: u32): u32 { Lookup(relocations, Datas, data) }
  function ElementIndex(relocations: RelocationMap, element: u32): u32 { Lookup(relocations, Elems, element) }
  function FunctionIndex(relocations: RelocationMap, func: u32): u32 { Lookup(relocations, Funcs, func) }
  function GlobalIndex(relocations: RelocationMap, global: u32): u32 { Lookup(relocations, Globals, global) }
  function MemoryIndex(relocations: RelocationMap, memory: u32): u32 { Lookup(relocations, Memories, memory) }
  function TableIndex(relocations: RelocationMap, table: u32): u32 { Lookup(relocations, Tables, table) }
  function TagIndex(relocations: RelocationMap, tag: u32): u32 { Lookup(relocations, Tags, tag) }
  function TypeIndex(relocations: RelocationMap, ty: u32): u32 { Lookup(relocations, Types, ty) }

  /** The eight named lookups are the lookup of their own kind: each reads only the entry tagged
      with that kind, and falls back to the old index. */
  lemma NamedLookups(m: RelocationMap, i: u32)
    ensures FunctionIndex(m, i) == (if Func(i) in m then m[Func(i)] else i)
    ensures TypeIndex(m, i) == (if Type(i) in m then m[Type(i)] else i)
    ensures TableIndex(m, i) == (if Table(i) in m then m[Table(i)] else i)
    ensures GlobalIndex(m, i) == (if Global(i) in m then m[Global(i)] else i)
    ensures MemoryIndex(m, i) == (if Memory(i) in m then m[Memory(i)] else i)
    ensures DataIndex(m, i) == (if Data(i) in m then m[Data(i)] else i)
    ensures ElementIndex(m, i) == (if Elem(i) in m then m[Elem(i)] else i)
    ensures TagIndex(m, i) == (if Tag(i) in m then m[Tag(i)] else i)
  {
  }

  /** An entry for one kind never changes a lookup of another kind or of another index: adding
      `Func(n)` leaves `type_index(n)` as it was. */
  lemma LookupIndependent(m: RelocationMap, k: Kind, i: u32, v: u32, j: Kind, x: u32)
    ensures Lookup(m[Key(k, i) := v], j, x) == if j == k && x == i then v else Lookup(m, j, x)
  {
    KeyRoundTrip(k, i, Key(j, x));
  }

  /** An empty table renumbers nothing. */
  lemma EmptyTableIsIdentity(k: Kind, i: u32)
    ensures Lookup(map[], k, i) == i
  {
  }
}
