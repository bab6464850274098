// The relocation table of src/main.rs: every live index of each kind is renumbered to its
// position in that kind's live list. Since the liveness pass leaves each list ascending, the
// i-th smallest live index becomes i.

module Renumber {
  import opened Base
  import opened LiveUses
  import opened WasmModule
  import opened Relocations
  import opened Worklist

  /** The first position of `x` in `s`, if any. */
  function Position(s: seq<u32>, x: u32): (r: Option<nat>)
    ensures r.Some? <==> x in s
    ensures r.Some? ==> r.value < |s| && s[r.value] == x && x !in s[..r.value]
  {
    if s == [] then None
    else if s[0] == x then Some(0)
    else
      match Position(s[1..], x)
      case None => None
      case Some(p) =>
        assert s[..p + 1] == [s[0]] + s[1..][..p];
        Some(p + 1)
  }

  /** `get_new_index`: the position of `idx` in `live` as a `u32`; panics when it is absent. */
  method GetNewIndex(live: seq<u32>, idx: u32) returns (r: Result<u32>)
    ensures idx in live ==> r == Ok(TruncU32(Position(live, idx).value))
    ensures idx !in live ==> r == Panicked
  {
    for i := 0 to |live|
      invariant idx !in live[..i]
    {
      if live[i] == idx {
        assert Position(live, idx).value == i;
        return Ok(TruncU32(i));
      }
      assert live[..i + 1] == live[..i] + [live[i]];
    }
    assert live[..|live|] == live;
    return Panicked;
  }

  /** The table after the `for … in &all_uses.live_…` loop of kind `k` has gone through
      `items`, starting from `r0`. */
  function RenumberList(r0: RelocationMap, k: Kind, live: seq<u32>, items: seq<u32>): RelocationMap
    requires forall x :: x in items ==> x in live
    decreases |items|
  {
    if items == [] then r0
    else
      var last := items[|items| - 1];
      RenumberList(r0, k, live, items[..|items| - 1])[Key(k, last) := TruncU32(Position(live, last).value)]
  }

  /** The table after the loops of the kinds `ks`, in that order. */
  function RenumberKinds(all: Uses, ks: seq<Kind>): RelocationMap
    decreases |ks|
  {
    if ks == [] then map[]
    else
      var k := ks[|ks| - 1];
      RenumberList(RenumberKinds(all, ks[..|ks| - 1]), k, all.Of(k), all.Of(k))
  }

  /** The relocation table built from the live lists. */
  function RelocationTable(all: Uses): RelocationMap {
    RenumberKinds(all, KindOrder)
  }

  /** One more step of the loop over a kind's live list. */
  lemma RenumberListStep(r0: RelocationMap, k: Kind, live: seq<u32>, j: nat)
    requires j < |live|
    ensures RenumberList(r0, k, live, live[..j + 1])
            == RenumberList(r0, k, live, live[..j])[Key(k, live[j]) := TruncU32(Position(live, live[j]).value)]
  {
    assert live[..j + 1][..j] == live[..j];
  }

  /** The loop over one kind's live list. */
  method RenumberKind(r0: RelocationMap, k: Kind, live: seq<u32>) returns (r: RelocationMap)
    ensures r == RenumberList(r0, k, live, live)
  {
    r := r0;
    assert live[..0] == [];
    assert r == RenumberList(r0, k, live, live[..0]);
    hide RenumberList, Position;
    for j := 0 to |live|
      invariant r == RenumberList(r0, k, live, live[..j])
    {
      var newIdx := GetNewIndex(live, live[j]);
      RenumberListStep(r0, k, live, j);
      r := r[Key(k, live[j]) := newIdx.value];
    }
    assert live[..|live|] == live;
  }

  method BuildRelocations(all: Uses) returns (r: RelocationMap)
    ensures r == RelocationTable(all)
  {
    r := map[];
    assert KindOrder[..0] == [];
    for ki := 0 to |KindOrder|
      invariant r == RenumberKinds(all, KindOrder[..ki])
    {
      assert KindOrder[..ki + 1][..ki] == KindOrder[..ki];
      r := RenumberKind(r, KindOrder[ki], all.Of(KindOrder[ki]));
    }
    assert KindOrder[..|KindOrder|] == KindOrder;
  }

  // ---------------------------------------------------------------------------
  // What the table holds
  // ---------------------------------------------------------------------------

  lemma {:induction false} RenumberListHas(r0: RelocationMap, k: Kind, live: seq<u32>, items: seq<u32>, x: Relocation)
    requires forall y :: y in items ==> y in live
    ensures x in RenumberList(r0, k, live, items) <==> x in r0 || (KindOf(x) == k && x.index in items)
    ensures KindOf(x) == k && x.index in items ==>
      RenumberList(r0, k, live, items)[x] == TruncU32(Position(live, x.index).value)
    ensures !(KindOf(x) == k && x.index in items) && x in r0 ==> RenumberList(r0, k, live, items)[x] == r0[x]
    decreases |items|
  {
    if items != [] {
      var last := items[|items| - 1];
      var init := items[..|items| - 1];
      assert items == init + [last];
      RenumberListHas(r0, k, live, init, x);
      KeyRoundTrip(k, last, x);
    }
  }

  lemma {:induction false} RenumberKindsHas(all: Uses, ks: seq<Kind>, x: Relocation)
    ensures x in RenumberKinds(all, ks) <==> KindOf(x) in ks && x.index in all.Of(KindOf(x))
    ensures x in RenumberKinds(all, ks) ==>
      RenumberKinds(all, ks)[x] == TruncU32(Position(all.Of(KindOf(x)), x.index).value)
    decreases |ks|
  {
    if ks != [] {
      var k := ks[|ks| - 1];
      var init := ks[..|ks| - 1];
      assert ks == init + [k];
      RenumberKindsHas(all, init, x);
      RenumberListHas(RenumberKinds(all, init), k, all.Of(k), all.Of(k), x);
    }
  }

  /** The table has an entry for an index exactly when it is live, and the entry is the index's
      position in its kind's live list. */
  lemma RelocationTableHas(all: Uses, k: Kind, i: u32)
    ensures Key(k, i) in RelocationTable(all) <==> i in all.Of(k)
    ensures i in all.Of(k) ==> RelocationTable(all)[Key(k, i)] == TruncU32(Position(all.Of(k), i).value)
  {
    KindOrderHasAll(k);
    KeyRoundTrip(k, i, Key(k, i));
    RenumberKindsHas(all, KindOrder, Key(k, i));
  }

  lemma AscendingPosition(s: seq<u32>, n: nat)
    requires Ascending(s) && n < |s|
    ensures Position(s, s[n]) == Some(n)
  {
  }

  /** For a normalised live list, the `n`-th live index of a kind is renumbered to `n`. */
  lemma RenumberDense(all: Uses, k: Kind, n: nat)
    requires Normal(all) && n < |all.Of(k)|
    ensures Lookup(RelocationTable(all), k, all.Of(k)[n]) == n
  {
    RelocationTableHas(all, k, all.Of(k)[n]);
    AscendingPosition(all.Of(k), n);
    AscendingLength(all.Of(k));
  }

  /** Every live index is renumbered below the number of live indices of its kind: together with
      `RenumberDense`, the renumbering of a kind maps the live indices onto `[0, len)`. */
  lemma RenumberBelowLength(all: Uses, k: Kind, i: u32)
    requires Normal(all) && i in all.Of(k)
    ensures Lookup(RelocationTable(all), k, i) < |all.Of(k)|
  {
    var n :| 0 <= n < |all.Of(k)| && all.Of(k)[n] == i;
    RenumberDense(all, k, n);
  }

  /** The renumbering keeps the order of the live indices of a kind. */
  lemma RenumberKeepsOrder(all: Uses, k: Kind, i: u32, j: u32)
    requires Normal(all) && i in all.Of(k) && j in all.Of(k)
    ensures i < j <==> Lookup(RelocationTable(all), k, i) < Lookup(RelocationTable(all), k, j)
  {
    var s := all.Of(k);
    var a :| 0 <= a < |s| && s[a] == i;
    var b :| 0 <= b < |s| && s[b] == j;
    RenumberDense(all, k, a);
    RenumberDense(all, k, b);
    if a < b {
      assert s[a] < s[b];
    } else if b < a {
      assert s[b] < s[a];
    }
  }
}
