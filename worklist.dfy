// The liveness pass of src/main.rs: a FIFO work queue seeded with the requested items, and the
// merge of every processed item's uses into `all_uses`. What it computes is the least set of
// items that holds the requests and is closed under "uses".

module Worklist {
  import opened Base
  import opened LiveUses
  import opened WasmModule
  import opened ItemUses

  /** The order of the `Uses` fields, which is the order of the per-kind loops. */
  const KindOrder: seq<Kind> := [Types, Funcs, Tables, Globals, Memories, Datas, Elems, Tags]

  lemma KindOrderHasAll(k: Kind)
    ensures k in KindOrder
  {
  }

  /** `len() as u32`: the length the requested indices are compared with. */
  function Bound(m: Module, k: Kind): u32 {
    TruncU32(Count(m, k))
  }

  // ---------------------------------------------------------------------------
  // The initial queue
  // ---------------------------------------------------------------------------

  /** One `for idx in &args.…` loop: the requested indices below the bound, in request order. */
  function Requested(m: Module, k: Kind, idxs: seq<u32>): (r: seq<WorkItem>)
    ensures forall q :: q in r <==> q.kind == k && q.index in idxs && q.index < Bound(m, k)
    decreases |idxs|
  {
    if idxs == [] then []
    else
      var last := idxs[|idxs| - 1];
      Requested(m, k, idxs[..|idxs| - 1]) + (if last < Bound(m, k) then [WorkItem(k, last)] else [])
  }

  function RequestedKinds(m: Module, args: Uses, ks: seq<Kind>): (r: seq<WorkItem>)
    ensures forall q :: q in r <==>
      q.kind in ks && q.index in args.Of(q.kind) && q.index < Bound(m, q.kind)
    decreases |ks|
  {
    if ks == [] then []
    else
      var k := ks[|ks| - 1];
      RequestedKinds(m, args, ks[..|ks| - 1]) + Requested(m, k, args.Of(k))
  }

  /** The work queue before the first step. */
  function InitialQueue(m: Module, args: Uses): seq<WorkItem> {
    RequestedKinds(m, args, KindOrder)
  }

  /** The initial queue holds exactly the requested items that are in range. */
  lemma InitialQueueMembers(m: Module, args: Uses, q: WorkItem)
    ensures q in InitialQueue(m, args) <==> q.index in args.Of(q.kind) && q.index < Bound(m, q.kind)
  {
    KindOrderHasAll(q.kind);
  }

  /** Each of the per-kind lists is empty for no indices or no kinds. */
  lemma EmptyLists()
    ensures forall m, k :: Requested(m, k, []) == []
    ensures forall m, args :: RequestedKinds(m, args, []) == []
    ensures forall k, seen :: Unseen(k, [], seen) == []
    ensures forall all, found :: UnseenKinds(all, found, []) == []
  {
  }

  lemma RequestedSnoc(m: Module, k: Kind, idxs: seq<u32>, j: nat)
    requires j < |idxs|
    ensures Requested(m, k, idxs[..j + 1]) ==
      Requested(m, k, idxs[..j]) + (if idxs[j] < Bound(m, k) then [WorkItem(k, idxs[j])] else [])
  {
    assert idxs[..j + 1][..j] == idxs[..j];
  }

  lemma RequestedKindsSnoc(m: Module, args: Uses, ks: seq<Kind>, j: nat)
    requires j < |ks|
    ensures RequestedKinds(m, args, ks[..j + 1]) ==
      RequestedKinds(m, args, ks[..j]) + Requested(m, ks[j], args.Of(ks[j]))
  {
    assert ks[..j + 1][..j] == ks[..j];
  }

  /** One `for idx in &args.…` loop, appending to `queue0`. */
  method RequestKind(queue0: seq<WorkItem>, m: Module, k: Kind, idxs: seq<u32>) returns (queue: seq<WorkItem>)
    ensures queue == queue0 + Requested(m, k, idxs)
  {
    hide Requested;
    queue := queue0;
    EmptyLists();
    assert idxs[..0] == [];
    for j := 0 to |idxs|
      invariant queue == queue0 + Requested(m, k, idxs[..j])
    {
      RequestedSnoc(m, k, idxs, j);
      if idxs[j] < Bound(m, k) {
        queue := queue + [WorkItem(k, idxs[j])];
      }
    }
    assert idxs[..|idxs|] == idxs;
  }

  method BuildInitialQueue(m: Module, args: Uses) returns (queue: seq<WorkItem>)
    ensures queue == InitialQueue(m, args)
  {
    hide Requested, RequestedKinds;
    queue := [];
    EmptyLists();
    assert KindOrder[..0] == [];
    for ki := 0 to |KindOrder|
      invariant queue == RequestedKinds(m, args, KindOrder[..ki])
    {
      RequestedKindsSnoc(m, args, KindOrder, ki);
      queue := RequestKind(queue, m, KindOrder[ki], args.Of(KindOrder[ki]));
    }
    assert KindOrder[..|KindOrder|] == KindOrder;
  }

  // ---------------------------------------------------------------------------
  // Enqueueing the items a step found
  // ---------------------------------------------------------------------------

  /** One `for idx in &new_uses.…` loop: the indices of `idxs` not yet in `seen`, in order. */
  function Unseen(k: Kind, idxs: seq<u32>, seen: seq<u32>): (r: seq<WorkItem>)
    ensures forall q :: q in r <==> q.kind == k && q.index in idxs && q.index !in seen
    decreases |idxs|
  {
    if idxs == [] then []
    else
      var last := idxs[|idxs| - 1];
      Unseen(k, idxs[..|idxs| - 1], seen) + (if last !in seen then [WorkItem(k, last)] else [])
  }

  function UnseenKinds(all: Uses, found: Uses, ks: seq<Kind>): (r: seq<WorkItem>)
    ensures forall q :: q in r <==> q.kind in ks && q.index in found.Of(q.kind) && q.index !in all.Of(q.kind)
    decreases |ks|
  {
    if ks == [] then []
    else
      var k := ks[|ks| - 1];
      UnseenKinds(all, found, ks[..|ks| - 1]) + Unseen(k, found.Of(k), all.Of(k))
  }

  /** The items a step appends to the queue. */
  function NewItems(all: Uses, found: Uses): seq<WorkItem> {
    UnseenKinds(all, found, KindOrder)
  }

  /** A step enqueues exactly the items it found that were not live before it. */
  lemma NewItemsMembers(all: Uses, found: Uses, q: WorkItem)
    ensures q in NewItems(all, found) <==> q.index in found.Of(q.kind) && q.index !in all.Of(q.kind)
  {
    KindOrderHasAll(q.kind);
  }

  lemma UnseenSnoc(k: Kind, idxs: seq<u32>, seen: seq<u32>, j: nat)
    requires j < |idxs|
    ensures Unseen(k, idxs[..j + 1], seen) ==
      Unseen(k, idxs[..j], seen) + (if idxs[j] !in seen then [WorkItem(k, idxs[j])] else [])
  {
    assert idxs[..j + 1][..j] == idxs[..j];
  }

  lemma UnseenKindsSnoc(all: Uses, found: Uses, ks: seq<Kind>, j: nat)
    requires j < |ks|
    ensures UnseenKinds(all, found, ks[..j + 1]) ==
      UnseenKinds(all, found, ks[..j]) + Unseen(ks[j], found.Of(ks[j]), all.Of(ks[j]))
  {
    assert ks[..j + 1][..j] == ks[..j];
  }

  /** One `for idx in &new_uses.…` loop, appending to `queue0`. */
  method EnqueueKind(queue0: seq<WorkItem>, k: Kind, idxs: seq<u32>, seen: seq<u32>) returns (queue: seq<WorkItem>)
    ensures queue == queue0 + Unseen(k, idxs, seen)
  {
    hide Unseen;
    queue := queue0;
    EmptyLists();
    assert idxs[..0] == [];
    for j := 0 to |idxs|
      invariant queue == queue0 + Unseen(k, idxs[..j], seen)
    {
      UnseenSnoc(k, idxs, seen, j);
      if idxs[j] !in seen {
        queue := queue + [WorkItem(k, idxs[j])];
      }
    }
    assert idxs[..|idxs|] == idxs;
  }

  method Enqueue(queue: seq<WorkItem>, all: Uses, found: Uses) returns (r: seq<WorkItem>)
    ensures r == queue + NewItems(all, found)
  {
    hide Unseen, UnseenKinds;
    r := queue;
    EmptyLists();
    assert KindOrder[..0] == [];
    for ki := 0 to |KindOrder|
      invariant r == queue + UnseenKinds(all, found, KindOrder[..ki])
    {
      UnseenKindsSnoc(all, found, KindOrder, ki);
      r := EnqueueKind(r, KindOrder[ki], found.Of(KindOrder[ki]), all.Of(KindOrder[ki]));
    }
    assert KindOrder[..|KindOrder|] == KindOrder;
  }

  // ---------------------------------------------------------------------------
  // Sizes, for termination
  // ---------------------------------------------------------------------------

  /** How many indices a value lists in all. */
  function Size(u: Uses): nat {
    |u.liveTypes| + |u.liveFuncs| + |u.liveTables| + |u.liveGlobals| +
    |u.liveMemories| + |u.liveDatas| + |u.liveElems| + |u.liveTags|
  }

  const SizeLimit: nat := 8 * U32_LIMIT

  lemma {:induction false} AscendingCard(s: seq<u32>)
    requires Ascending(s)
    ensures |Members(s)| == |s|
    decreases |s|
  {
    if s == [] {
      EmptyMembers(s);
    } else {
      AscendingHead(s);
      MembersCons(s);
      AscendingCard(s[1..]);
      assert s[0] !in Members(s[1..]);
    }
  }

  /** A normal list of `u32` indices has at most 2^32 entries. */
  lemma AscendingLength(s: seq<u32>)
    requires Ascending(s)
    ensures |s| <= U32_LIMIT
  {
    if s != [] {
      AscendingBounds(s, |s| - 1);
    }
  }

  lemma SizeBound(u: Uses)
    requires Normal(u)
    ensures Size(u) <= SizeLimit
  {
    forall k
      ensures |u.Of(k)| <= U32_LIMIT
    {
      AscendingLength(u.Of(k));
    }
    assert |u.Of(Types)| <= U32_LIMIT && |u.Of(Funcs)| <= U32_LIMIT && |u.Of(Tables)| <= U32_LIMIT;
    assert |u.Of(Globals)| <= U32_LIMIT && |u.Of(Memories)| <= U32_LIMIT && |u.Of(Datas)| <= U32_LIMIT;
    assert |u.Of(Elems)| <= U32_LIMIT && |u.Of(Tags)| <= U32_LIMIT;
  }

  lemma SubsetShorter(a: seq<u32>, b: seq<u32>)
    requires Ascending(a) && Ascending(b) && Members(a) <= Members(b)
    ensures |a| <= |b|
    ensures Members(a) < Members(b) ==> |a| < |b|
  {
    AscendingCard(a);
    AscendingCard(b);
    var d := Members(b) - Members(a);
    assert Members(b) == Members(a) + d;
    assert Members(a) * d == {};
    assert Members(a) < Members(b) ==> d != {};
  }

  /** Merging a step's uses never shrinks a normal value; it grows it exactly when the step finds
      something new, and otherwise leaves it as it was. */
  lemma MergeGrows(all: Uses, found: Uses)
    requires Normal(all)
    ensures Size(Merged(all, found)) >= Size(all)
    ensures NewItems(all, found) != [] ==> Size(Merged(all, found)) > Size(all)
    ensures NewItems(all, found) == [] ==> Merged(all, found) == all
  {
    hide Merged;
    var r := Merged(all, found);
    forall k
      ensures |all.Of(k)| <= |r.Of(k)|
    {
      SubsetShorter(all.Of(k), r.Of(k));
    }
    assert |all.Of(Types)| <= |r.Of(Types)| && |all.Of(Funcs)| <= |r.Of(Funcs)|;
    assert |all.Of(Tables)| <= |r.Of(Tables)| && |all.Of(Globals)| <= |r.Of(Globals)|;
    assert |all.Of(Memories)| <= |r.Of(Memories)| && |all.Of(Datas)| <= |r.Of(Datas)|;
    assert |all.Of(Elems)| <= |r.Of(Elems)| && |all.Of(Tags)| <= |r.Of(Tags)|;
    if NewItems(all, found) != [] {
      var q := NewItems(all, found)[0];
      NewItemsMembers(all, found, q);
      assert q.index in Members(r.Of(q.kind)) && q.index !in Members(all.Of(q.kind));
      SubsetShorter(all.Of(q.kind), r.Of(q.kind));
    } else {
      forall k
        ensures Members(r.Of(k)) == Members(all.Of(k))
      {
        forall i | i in found.Of(k)
          ensures i in all.Of(k)
        {
          NewItemsMembers(all, found, WorkItem(k, i));
        }
      }
      NormalEqual(r, all);
    }
  }

  // ---------------------------------------------------------------------------
  // The loop
  // ---------------------------------------------------------------------------

  /** Every index of `small` is also in `big`. */
  predicate Includes(big: Uses, small: Uses) {
    forall k :: Members(small.Of(k)) <= Members(big.Of(k))
  }

  /** Item `p` does not panic and uses `q`. */
  predicate UsedBy(m: Module, q: WorkItem, p: WorkItem) {
    ItemUsesOf(m, p).Ok? && q.index in ItemUsesOf(m, p).value.Of(q.kind)
  }

  /** Every item `u` lists is processable and everything it uses is in `u` too. */
  predicate Closed(m: Module, u: Uses) {
    forall k, i :: i in u.Of(k) ==>
      ItemUsesOf(m, WorkItem(k, i)).Ok? && Includes(u, ItemUsesOf(m, WorkItem(k, i)).value)
  }

  /** `u` lists every item of the initial queue. */
  predicate HoldsRequests(m: Module, args: Uses, u: Uses) {
    forall q :: q in InitialQueue(m, args) ==> q.index in u.Of(q.kind)
  }

  /** Every item in `order` is requested or used by an item earlier in `order`. */
  predicate Justified(m: Module, args: Uses, order: seq<WorkItem>) {
    forall j :: 0 <= j < |order| ==>
      order[j] in InitialQueue(m, args) || exists j' :: 0 <= j' < j && UsedBy(m, order[j], order[j'])
  }

  /** The loop invariant: `order` is the sequence of items processed so far. */
  predicate Inv(m: Module, args: Uses, queue: seq<WorkItem>, all: Uses, order: seq<WorkItem>) {
    && Normal(all)
    && (forall p :: p in order ==> ItemUsesOf(m, p).Ok? && Includes(all, ItemUsesOf(m, p).value))
    && (forall k, i :: i in all.Of(k) ==> WorkItem(k, i) in order || WorkItem(k, i) in queue)
    && (forall q :: q in queue ==>
          q in InitialQueue(m, args) || exists j :: 0 <= j < |order| && UsedBy(m, q, order[j]))
    && (forall q :: q in InitialQueue(m, args) ==> q in order || q in queue)
    && Justified(m, args, order)
  }

  lemma InvInit(m: Module, args: Uses)
    ensures Inv(m, args, InitialQueue(m, args), Default, [])
  {
    forall k, i | i in Default.Of(k)
      ensures false
    {
      EmptyMembers(Default.Of(k));
    }
  }

  lemma MergedIncludes(all: Uses, found: Uses)
    ensures Includes(Merged(all, found), all) && Includes(Merged(all, found), found)
  {
  }

  lemma IncludesTrans(a: Uses, b: Uses, c: Uses)
    requires Includes(a, b) && Includes(b, c)
    ensures Includes(a, c)
  {
  }

  lemma TailHas(queue: seq<WorkItem>, q: WorkItem)
    requires q in queue && q != queue[0]
    ensures q in queue[1..]
  {
    var n :| 0 <= n < |queue| && queue[n] == q;
    assert queue[1..][n - 1] == q;
  }

  lemma StepIncluded(m: Module, order: seq<WorkItem>, all: Uses, x: WorkItem, found: Uses)
    requires forall p :: p in order ==> ItemUsesOf(m, p).Ok? && Includes(all, ItemUsesOf(m, p).value)
    requires ItemUsesOf(m, x) == Ok(found)
    ensures forall p :: p in order + [x] ==>
      ItemUsesOf(m, p).Ok? && Includes(Merged(all, found), ItemUsesOf(m, p).value)
  {
    hide Merged, ItemUsesOf;
    MergedIncludes(all, found);
    forall p | p in order + [x]
      ensures ItemUsesOf(m, p).Ok? && Includes(Merged(all, found), ItemUsesOf(m, p).value)
    {
      if p != x {
        IncludesTrans(Merged(all, found), all, ItemUsesOf(m, p).value);
      }
    }
  }

  lemma StepCovered(queue: seq<WorkItem>, all: Uses, order: seq<WorkItem>, found: Uses)
    requires queue != []
    requires forall k, i :: i in all.Of(k) ==> WorkItem(k, i) in order || WorkItem(k, i) in queue
    ensures forall k, i :: i in Merged(all, found).Of(k) ==>
      WorkItem(k, i) in order + [queue[0]] || WorkItem(k, i) in queue[1..] + NewItems(all, found)
  {
    hide Merged, NewItems;
    forall k, i | i in Merged(all, found).Of(k)
      ensures WorkItem(k, i) in order + [queue[0]] || WorkItem(k, i) in queue[1..] + NewItems(all, found)
    {
      assert i in Members(Merged(all, found).Of(k));
      if i !in all.Of(k) {
        assert i in Members(found.Of(k));
        NewItemsMembers(all, found, WorkItem(k, i));
      } else if WorkItem(k, i) in queue && WorkItem(k, i) != queue[0] {
        TailHas(queue, WorkItem(k, i));
      }
    }
  }

  lemma StepQueue(m: Module, args: Uses, queue: seq<WorkItem>, all: Uses, order: seq<WorkItem>, found: Uses)
    requires queue != [] && ItemUsesOf(m, queue[0]) == Ok(found)
    requires forall q :: q in queue ==>
      q in InitialQueue(m, args) || exists j :: 0 <= j < |order| && UsedBy(m, q, order[j])
    requires forall q :: q in InitialQueue(m, args) ==> q in order || q in queue
    ensures forall q :: q in queue[1..] + NewItems(all, found) ==>
      q in InitialQueue(m, args) || exists j :: 0 <= j < |order + [queue[0]]| && UsedBy(m, q, (order + [queue[0]])[j])
    ensures forall q :: q in InitialQueue(m, args) ==> q in order + [queue[0]] || q in queue[1..] + NewItems(all, found)
  {
    hide Merged, NewItems, InitialQueue, ItemUsesOf;
    var order' := order + [queue[0]];
    forall q | q in queue[1..] + NewItems(all, found)
      ensures q in InitialQueue(m, args) || exists j :: 0 <= j < |order'| && UsedBy(m, q, order'[j])
    {
      if q in queue[1..] {
        assert q in queue;
        if q !in InitialQueue(m, args) {
          var j :| 0 <= j < |order| && UsedBy(m, q, order[j]);
          assert order'[j] == order[j];
        }
      } else {
        NewItemsMembers(all, found, q);
        assert UsedBy(m, q, order'[|order|]);
      }
    }
    forall q | q in InitialQueue(m, args)
      ensures q in order' || q in queue[1..] + NewItems(all, found)
    {
      if q in queue && q != queue[0] {
        TailHas(queue, q);
      }
    }
  }

  lemma StepJustified(m: Module, args: Uses, queue: seq<WorkItem>, order: seq<WorkItem>)
    requires queue != [] && Justified(m, args, order)
    requires queue[0] in InitialQueue(m, args) || exists j :: 0 <= j < |order| && UsedBy(m, queue[0], order[j])
    ensures Justified(m, args, order + [queue[0]])
  {
    hide InitialQueue, UsedBy;
    var x := queue[0];
    var order' := order + [x];
    forall j | 0 <= j < |order'|
      ensures order'[j] in InitialQueue(m, args) || exists j' :: 0 <= j' < j && UsedBy(m, order'[j], order'[j'])
    {
      if j < |order| {
        assert order'[j] == order[j];
        if order[j] !in InitialQueue(m, args) {
          var j' :| 0 <= j' < j && UsedBy(m, order[j], order[j']);
          assert order'[j'] == order[j'];
        }
      } else if x !in InitialQueue(m, args) {
        var j' :| 0 <= j' < |order| && UsedBy(m, x, order[j']);
        assert order'[j'] == order[j'];
      }
    }
  }

  /** One step keeps the invariant: the head is processed, its new items are enqueued and its
      uses merged in. */
  lemma InvStep(m: Module, args: Uses, queue: seq<WorkItem>, all: Uses, order: seq<WorkItem>, found: Uses)
    requires Inv(m, args, queue, all, order)
    requires queue != [] && ItemUsesOf(m, queue[0]) == Ok(found)
    ensures Inv(m, args, queue[1..] + NewItems(all, found), Merged(all, found), order + [queue[0]])
  {
    hide Merged, NewItems, InitialQueue, ItemUsesOf, UsedBy, Justified;
    StepIncluded(m, order, all, queue[0], found);
    StepCovered(queue, all, order, found);
    StepQueue(m, args, queue, all, order, found);
    StepJustified(m, args, queue, order);
  }

  /** Every item of a justified order is in any closed value that holds the requests. */
  lemma {:induction false} JustifiedIncluded(m: Module, args: Uses, order: seq<WorkItem>, v: Uses, j: nat)
    requires Justified(m, args, order) && Closed(m, v) && HoldsRequests(m, args, v)
    requires j < |order|
    ensures order[j].index in v.Of(order[j].kind)
    decreases j
  {
    if order[j] !in InitialQueue(m, args) {
      var j' :| 0 <= j' < j && UsedBy(m, order[j], order[j']);
      JustifiedIncluded(m, args, order, v, j');
      var p := order[j'];
      assert Includes(v, ItemUsesOf(m, p).value);
      assert order[j].index in Members(ItemUsesOf(m, p).value.Of(order[j].kind));
    }
  }

  lemma InvHead(m: Module, args: Uses, queue: seq<WorkItem>, all: Uses, order: seq<WorkItem>)
    requires Inv(m, args, queue, all, order) && queue != []
    ensures Normal(all) && Justified(m, args, order)
    ensures queue[0] in InitialQueue(m, args) || exists j :: 0 <= j < |order| && UsedBy(m, queue[0], order[j])
  {
  }

  /** With the queue empty, the invariant gives the loop's postcondition. */
  lemma InvDone(m: Module, args: Uses, all: Uses, order: seq<WorkItem>)
    requires Inv(m, args, [], all, order)
    ensures Normal(all) && HoldsRequests(m, args, all) && Closed(m, all)
    ensures forall v :: Closed(m, v) && HoldsRequests(m, args, v) ==> Includes(v, all)
  {
    hide Merged, ItemUsesOf, Justified;
    forall q | q in InitialQueue(m, args)
      ensures q.index in all.Of(q.kind)
    {
      SelfUse(m, q);
      assert q.index in Members(ItemUsesOf(m, q).value.Of(q.kind));
    }
    forall v | Closed(m, v) && HoldsRequests(m, args, v)
      ensures Includes(v, all)
    {
      forall k, i | i in all.Of(k)
        ensures i in v.Of(k)
      {
        var n :| 0 <= n < |order| && order[n] == WorkItem(k, i);
        JustifiedIncluded(m, args, order, v, n);
      }
    }
  }

  /** An item reached from the requests that panics leaves no value that holds the requests and
      is closed under uses: such a value would list the item, and a listed item cannot panic. */
  lemma ReachedPanicNoClosure(m: Module, args: Uses, trail: seq<WorkItem>, q: WorkItem)
    requires Justified(m, args, trail + [q]) && ItemUsesOf(m, q).Panicked?
    ensures forall v :: !(Closed(m, v) && HoldsRequests(m, args, v))
  {
    forall v | Closed(m, v) && HoldsRequests(m, args, v)
      ensures false
    {
      assert (trail + [q])[|trail|] == q;
      JustifiedIncluded(m, args, trail + [q], v, |trail|);
    }
  }

  /** The liveness loop. On success the result holds the requested items, is closed under uses,
      and is included in every other value that does both: it is the least such value. A panic
      comes from an item `culprit` reached from the requests along `trail`, the items processed
      before it, each requested or used by an earlier one; so no such value exists. */
  method Liveness(m: Module, args: Uses) returns (r: Result<Uses>, ghost culprit: WorkItem, ghost trail: seq<WorkItem>)
    ensures r.Ok? ==> Normal(r.value) && HoldsRequests(m, args, r.value) && Closed(m, r.value)
    ensures r.Ok? ==> forall v :: Closed(m, v) && HoldsRequests(m, args, v) ==> Includes(v, r.value)
    ensures r.Panicked? ==> ItemUsesOf(m, culprit).Panicked? && Justified(m, args, trail + [culprit])
    ensures r.Panicked? ==> forall v :: !(Closed(m, v) && HoldsRequests(m, args, v))
  {
    hide Merged, ItemUsesOf, Inv, NewItems, InitialQueue, Closed, HoldsRequests, Includes, Justified;
    var queue := BuildInitialQueue(m, args);
    var all := Default;
    ghost var order: seq<WorkItem> := [];
    InvInit(m, args);
    culprit := WorkItem(Types, 0);
    trail := [];
    while queue != []
      invariant Inv(m, args, queue, all, order)
      decreases SizeLimit - Size(all), |queue|
    {
      var work := queue[0];
      var newUses := ComputeItemUses(m, work);
      InvHead(m, args, queue, all, order);
      if newUses.Panicked? {
        culprit := work;
        trail := order;
        StepJustified(m, args, queue, order);
        ReachedPanicNoClosure(m, args, trail, culprit);
        return Panicked, culprit, trail;
      }
      var found := newUses.value;
      InvStep(m, args, queue, all, order, found);
      MergeGrows(all, found);
      SizeBound(Merged(all, found));
      queue := Enqueue(queue[1..], all, found);
      order := order + [work];
      all := Merge(all, found);
    }
    InvDone(m, args, all, order);
    r := Ok(all);
  }
}
