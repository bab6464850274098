// The index sets of the liveness engine (src/uses.rs): a `Uses` value lists, for each of the eight
// index spaces of a module, the indices something refers to. `merge` appends, sorts and
// deduplicates, so a merged list is the ascending list of the union of the two lists' elements.

module LiveUses {
  import opened Base

  /** The eight index spaces, in the order of the fields of `Uses`. */
  datatype Kind = Types | Funcs | Tables | Globals | Memories | Datas | Elems | Tags

  datatype Uses = Uses(
    liveTypes: seq<u32>,
    liveFuncs: seq<u32>,
    liveTables: seq<u32>,
    liveGlobals: seq<u32>,
    liveMemories: seq<u32>,
    liveDatas: seq<u32>,
    liveElems: seq<u32>,
    liveTags: seq<u32>)
  {
    /** The list of index space `k`. */
    function Of(k: Kind): seq<u32> {
      match k
      case Types => liveTypes
      case Funcs => liveFuncs
      case Tables => liveTables
      case Globals => liveGlobals
      case Memories => liveMemories
      case Datas => liveDatas
      case Elems => liveElems
      case Tags => liveTags
    }
  }

  /** `Uses::default()`: every list empty. */
  const Default: Uses := Uses([], [], [], [], [], [], [], [])

  /** `single_type`, `single_func`, … `single_tag`: the one index in its own list. */
  function Single(k: Kind, idx: u32): (r: Uses)
    ensures r.Of(k) == [idx]
    ensures forall j :: j != k ==> r.Of(j) == []
  {
    match k
    case Types => Default.(liveTypes := [idx])
    case Funcs => Default.(liveFuncs := [idx])
    case Tables => Default.(liveTables := [idx])
    case Globals => Default.(liveGlobals := [idx])
    case Memories => Default.(liveMemories := [idx])
    case Datas => Default.(liveDatas := [idx])
    case Elems => Default.(liveElems := [idx])
    case Tags => Default.(liveTags := [idx])
  }

  // ---------------------------------------------------------------------------
  // Ascending lists
  // ---------------------------------------------------------------------------

  function Members(s: seq<u32>): set<u32> {
    set x | x in s
  }

  /** Sorted with no duplicates: what `sort` followed by `dedup` leaves. */
  predicate Ascending(s: seq<u32>) {
    forall i, j :: 0 <= i < j < |s| ==> s[i] < s[j]
  }

  predicate NonDecreasing(s: seq<u32>) {
    forall i, j :: 0 <= i < j < |s| ==> s[i] <= s[j]
  }

  /** Every list of `u` is ascending. */
  predicate Normal(u: Uses) {
    forall k :: Ascending(u.Of(k))
  }

  /** The i-th element of an ascending list of u32 is at least i: such a list cannot be longer
      than the u32 range, and a position in it fits in a u32. */
  lemma {:induction false} AscendingBounds(s: seq<u32>, i: nat)
    requires Ascending(s) && i < |s|
    ensures s[i] >= i
    decreases i
  {
    if i > 0 {
      AscendingBounds(s, i - 1);
    }
  }

  /** A list has no elements exactly when it is empty. */
  lemma EmptyMembers(s: seq<u32>)
    ensures Members(s) == {} <==> s == []
  {
    if s != [] {
      assert s[0] in Members(s);
    }
  }

  /** An ascending list is determined by its elements. */
  lemma {:induction false} AscendingUnique(a: seq<u32>, b: seq<u32>)
    requires Ascending(a) && Ascending(b) && Members(a) == Members(b)
    ensures a == b
    decreases |a|
  {
    EmptyMembers(a);
    EmptyMembers(b);
    if a != [] {
      assert a[0] in Members(b);
      assert b[0] in Members(a);
      assert a[0] == b[0];
      forall x
        ensures x in Members(a[1..]) <==> x in Members(b[1..])
      {
        if x in Members(a[1..]) {
          assert x in Members(b);
        }
        if x in Members(b[1..]) {
          assert x in Members(a);
        }
      }
      AscendingUnique(a[1..], b[1..]);
      assert a == [a[0]] + a[1..];
      assert b == [b[0]] + b[1..];
    }
  }

  /** An element below every element of an ascending list can go in front of it. */
  lemma ConsAscending(h: u32, t: seq<u32>)
    requires Ascending(t)
    requires forall y :: y in Members(t) ==> h < y
    ensures Ascending([h] + t) && Members([h] + t) == {h} + Members(t)
  {
    forall i, j | 0 <= i < j < |[h] + t|
      ensures ([h] + t)[i] < ([h] + t)[j]
    {
      if i == 0 {
        assert t[j - 1] in Members(t);
      }
    }
  }

  /** The head of an ascending list is below every element of its tail. */
  lemma AscendingHead(t: seq<u32>)
    requires Ascending(t) && t != []
    ensures forall y :: y in Members(t[1..]) ==> t[0] < y
  {
    forall y | y in Members(t[1..])
      ensures t[0] < y
    {
      var i :| 0 <= i < |t[1..]| && t[1..][i] == y;
      assert t[i + 1] == y;
    }
  }

  lemma MembersCons(t: seq<u32>)
    requires t != []
    ensures Members(t) == {t[0]} + Members(t[1..])
  {
    assert t == [t[0]] + t[1..];
  }

  /** `x` put into its place in the ascending list `t`, unless it is there already. */
  function Insert(x: u32, t: seq<u32>): (r: seq<u32>)
    requires Ascending(t)
    ensures Ascending(r) && Members(r) == Members(t) + {x}
    decreases |t|
  {
    if t == [] then [x]
    else if x < t[0] then
      AscendingHead(t);
      MembersCons(t);
      ConsAscending(x, t);
      [x] + t
    else if x == t[0] then
      assert x in Members(t);
      t
    else
      var rest := Insert(x, t[1..]);
      MembersCons(t);
      AscendingHead(t);
      ConsAscending(t[0], rest);
      [t[0]] + rest
  }

  /** The ascending list of the elements of `s`: the form that sorting and then deduplicating
      gives, and the only ascending list with those elements (`AscendingUnique`). */
  function Normalized(s: seq<u32>): (r: seq<u32>)
    ensures Ascending(r) && Members(r) == Members(s)
    decreases |s|
  {
    if s == [] then []
    else
      assert s == s[..|s| - 1] + [s[|s| - 1]];
      assert Members(s) == Members(s[..|s| - 1]) + {s[|s| - 1]};
      Insert(s[|s| - 1], Normalized(s[..|s| - 1]))
  }

  // ---------------------------------------------------------------------------
  // merge and all
  // ---------------------------------------------------------------------------

  lemma MembersConcat(s: seq<u32>, t: seq<u32>)
    ensures Members(s + t) == Members(s) + Members(t)
  {
  }

  /** The merged list of kind `k`. */
  function Union(a: Uses, b: Uses, k: Kind): (r: seq<u32>)
    ensures Ascending(r) && Members(r) == Members(a.Of(k)) + Members(b.Of(k))
  {
    MembersConcat(a.Of(k), b.Of(k));
    Normalized(a.Of(k) + b.Of(k))
  }

  /** The value whose list of each kind is the merged list of that kind. */
  function MergedLists(a: Uses, b: Uses): Uses {
    Uses(Union(a, b, Types), Union(a, b, Funcs), Union(a, b, Tables), Union(a, b, Globals),
         Union(a, b, Memories), Union(a, b, Datas), Union(a, b, Elems), Union(a, b, Tags))
  }

  lemma MergedListsOf(a: Uses, b: Uses, k: Kind)
    ensures MergedLists(a, b).Of(k) == Union(a, b, k)
  {
  }

  /** What `a.merge(b)` leaves in `a`: in each kind, the ascending list of the indices of both. */
  function Merged(a: Uses, b: Uses): (r: Uses)
    ensures Normal(r)
    ensures forall k :: Members(r.Of(k)) == Members(a.Of(k)) + Members(b.Of(k))
  {
    forall k
      ensures MergedLists(a, b).Of(k) == Union(a, b, k)
    {
      MergedListsOf(a, b, k);
    }
    MergedLists(a, b)
  }

  lemma InsertSorted(x: u32, s: seq<u32>, i: nat)
    requires NonDecreasing(s) && i <= |s|
    requires forall j :: 0 <= j < i ==> s[j] <= x
    requires forall j :: i <= j < |s| ==> x <= s[j]
    ensures NonDecreasing(s[..i] + [x] + s[i..])
  {
  }

  /** Rust's `sort`: a non-decreasing permutation. Insertion into a sorted prefix. */
  method Sort(s: seq<u32>) returns (r: seq<u32>)
    ensures NonDecreasing(r) && multiset(r) == multiset(s)
  {
    r := [];
    var n := 0;
    while n < |s|
      invariant n <= |s|
      invariant NonDecreasing(r) && multiset(r) == multiset(s[..n])
    {
      var x := s[n];
      var i := 0;
      while i < |r| && r[i] < x
        invariant i <= |r|
        invariant forall j :: 0 <= j < i ==> r[j] <= x
      {
        i := i + 1;
      }
      InsertSorted(x, r, i);
      assert r == r[..i] + r[i..];
      assert s[..n + 1] == s[..n] + [x];
      r := r[..i] + [x] + r[i..];
      n := n + 1;
    }
    assert s[..n] == s;
  }

  /** Rust's `dedup`: drops every element equal to the last one kept. On a non-decreasing list
      the result is ascending. */
  method Dedup(s: seq<u32>) returns (r: seq<u32>)
    ensures Members(r) == Members(s)
    ensures forall i :: 0 < i < |r| ==> r[i - 1] != r[i]
    ensures NonDecreasing(s) ==> Ascending(r)
  {
    r := [];
    var i := 0;
    while i < |s|
      invariant i <= |s|
      invariant Members(r) == Members(s[..i])
      invariant i > 0 ==> r != [] && r[|r| - 1] == s[i - 1]
      invariant i == 0 ==> r == []
      invariant forall j :: 0 < j < |r| ==> r[j - 1] != r[j]
      invariant NonDecreasing(s) ==> Ascending(r)
    {
      assert s[..i + 1] == s[..i] + [s[i]];
      assert Members(s[..i + 1]) == Members(s[..i]) + {s[i]};
      if r == [] || r[|r| - 1] != s[i] {
        assert Members(r + [s[i]]) == Members(r) + {s[i]};
        r := r + [s[i]];
      }
      i := i + 1;
    }
    assert s[..i] == s;
  }

  /** `append_and_dedup(vec, other)`: the ascending list of the elements of both. */
  method AppendAndDedup(vec: seq<u32>, other: seq<u32>) returns (r: seq<u32>)
    ensures r == Normalized(vec + other)
  {
    var appended := vec + other;
    var sorted := Sort(appended);
    assert forall x :: x in sorted <==> x in multiset(sorted);
    assert Members(sorted) == Members(vec) + Members(other);
    r := Dedup(sorted);
    AscendingUnique(r, Normalized(vec + other));
  }

  /** `self.merge(other)`, returning the new `self`. */
  method Merge(self: Uses, other: Uses) returns (r: Uses)
    ensures r == Merged(self, other)
  {
    var types := AppendAndDedup(self.liveTypes, other.liveTypes);
    var funcs := AppendAndDedup(self.liveFuncs, other.liveFuncs);
    var tables := AppendAndDedup(self.liveTables, other.liveTables);
    var globals := AppendAndDedup(self.liveGlobals, other.liveGlobals);
    var memories := AppendAndDedup(self.liveMemories, other.liveMemories);
    var datas := AppendAndDedup(self.liveDatas, other.liveDatas);
    var elems := AppendAndDedup(self.liveElems, other.liveElems);
    var tags := AppendAndDedup(self.liveTags, other.liveTags);
    r := Uses(types, funcs, tables, globals, memories, datas, elems, tags);
  }

  /** `Uses::all(useses)`: the default value merged with each in turn. */
  function AllSpec(useses: seq<Uses>): Uses
    decreases |useses|
  {
    if useses == [] then Default else Merged(AllSpec(useses[..|useses| - 1]), useses[|useses| - 1])
  }

  method All(useses: seq<Uses>) returns (r: Uses)
    ensures r == AllSpec(useses)
  {
    hide Merged;
    r := Default;
    var i := 0;
    while i < |useses|
      invariant i <= |useses|
      invariant r == AllSpec(useses[..i])
    {
      assert useses[..i + 1][..i] == useses[..i];
      r := Merge(r, useses[i]);
      i := i + 1;
    }
    assert useses[..i] == useses;
  }

  /** A `for … { res.merge(…) }` loop: merges each of `us` into `r0`, the fold so far over
      `done`. */
  method MergeEach(r0: Uses, ghost done: seq<Uses>, us: seq<Uses>) returns (r: Uses)
    requires r0 == AllSpec(done)
    ensures r == AllSpec(done + us)
  {
    hide Merged;
    r := r0;
    assert done + us[..0] == done;
    for i := 0 to |us|
      invariant r == AllSpec(done + us[..i])
    {
      assert (done + us[..i + 1])[..|done| + i] == done + us[..i];
      r := Merge(r, us[i]);
    }
    assert us[..|us|] == us;
  }

  /** Every index of kind `k` in any of `useses`. */
  function UnionOf(useses: seq<Uses>, k: Kind): set<u32>
    decreases |useses|
  {
    if useses == [] then {} else UnionOf(useses[..|useses| - 1], k) + Members(useses[|useses| - 1].Of(k))
  }

  // ---------------------------------------------------------------------------
  // Properties of merge and all
  // ---------------------------------------------------------------------------

  /** `all` holds, in each list, exactly the indices of that kind in any of its arguments, as an
      ascending list. */
  lemma {:induction false} AllUnion(useses: seq<Uses>, k: Kind)
    ensures Ascending(AllSpec(useses).Of(k))
    ensures Members(AllSpec(useses).Of(k)) == UnionOf(useses, k)
    decreases |useses|
  {
    if useses != [] {
      AllUnion(useses[..|useses| - 1], k);
    } else {
      EmptyMembers(Default.Of(k));
    }
  }

  /** Two values are equal when each of their lists is. */
  lemma UsesEqual(a: Uses, b: Uses)
    requires forall k :: a.Of(k) == b.Of(k)
    ensures a == b
  {
    assert a.Of(Types) == b.Of(Types) && a.Of(Funcs) == b.Of(Funcs);
    assert a.Of(Tables) == b.Of(Tables) && a.Of(Globals) == b.Of(Globals);
    assert a.Of(Memories) == b.Of(Memories) && a.Of(Datas) == b.Of(Datas);
    assert a.Of(Elems) == b.Of(Elems) && a.Of(Tags) == b.Of(Tags);
  }

  /** Two values with ascending lists are equal when their lists hold the same indices. */
  lemma NormalEqual(a: Uses, b: Uses)
    requires Normal(a) && Normal(b)
    requires forall k :: Members(a.Of(k)) == Members(b.Of(k))
    ensures a == b
  {
    forall k
      ensures a.Of(k) == b.Of(k)
    {
      AscendingUnique(a.Of(k), b.Of(k));
    }
    UsesEqual(a, b);
  }

  /** Merging is symmetric: the lists never remember which side an index came from. */
  lemma MergeCommutes(a: Uses, b: Uses)
    ensures Merged(a, b) == Merged(b, a)
  {
    hide Merged;
    NormalEqual(Merged(a, b), Merged(b, a));
  }

  /** Merging a value with ascending lists into nothing, or nothing into it, gives it back; a
      value whose lists are out of order comes back sorted and deduplicated. */
  lemma MergeDefault(a: Uses)
    ensures Merged(a, Default) == Merged(Default, a)
    ensures Normal(a) ==> Merged(a, Default) == a
  {
    hide Merged;
    MergeCommutes(a, Default);
    if Normal(a) {
      NormalEqual(Merged(a, Default), a);
    }
  }

  /** Merging the same value twice changes nothing the second time. */
  lemma MergeIdempotent(a: Uses, b: Uses)
    ensures Merged(Merged(a, b), b) == Merged(a, b)
  {
    hide Merged;
    NormalEqual(Merged(Merged(a, b), b), Merged(a, b));
  }

  /** The order in which values are merged does not matter. */
  lemma MergeAssociates(a: Uses, b: Uses, c: Uses)
    ensures Merged(Merged(a, b), c) == Merged(a, Merged(b, c))
  {
    hide Merged;
    NormalEqual(Merged(Merged(a, b), c), Merged(a, Merged(b, c)));
  }
}
