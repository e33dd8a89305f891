// The ids of the uncut blocks after one block was cut and the list renumbered.
module Renaming {
  import opened Domain
  import opened Kernel
  import opened Plans
  import opened Sorting
  import opened Blocks
  import opened Moves
  import opened Splitting

  /** Block `at` is the only one cut. */
  ghost predicate SoleCut(cuts: seq<nat>, at: nat) {
    at < |cuts| && forall k :: 0 <= k < |cuts| ==> (cuts[k] > 0 <==> k == at)
  }

  lemma {:induction false} SoleCount(cuts: seq<nat>, at: nat, n: nat)
    requires SoleCut(cuts, at) && n <= |cuts|
    ensures CutCount(cuts, n) == if n <= at then 0 else 1
  {
    if n > 0 { SoleCount(cuts, at, n - 1); }
  }

  lemma {:induction false} SoleCutLists(plan: Plan, ids: seq<int>, cuts: seq<nat>, at: nat, firstId: int, n: nat)
    requires SoleCut(cuts, at) && CutsFit(plan, cuts) && n <= |cuts| && |ids| == |cuts|
    ensures |CutAll(plan, cuts, n)| == |HalfIds(ids, cuts, firstId, n)| == if n <= at then n else n + 1
    ensures n > at ==>
      var v, r := CutAll(plan, cuts, n), HalfIds(ids, cuts, firstId, n);
      && v[at] == plan[at][..cuts[at]] && r[at] == ids[at]
      && v[at + 1] == plan[at][cuts[at]..] && r[at + 1] == firstId
  {
    if n > 0 {
      SoleCutLists(plan, ids, cuts, at, firstId, n - 1);
      SoleCount(cuts, at, n - 1);
    }
  }

  /** Not behind in (start, id) order. */
  ghost predicate Precedes(c: Chain, id: int, d: Chain, other: int) {
    ChainStart(c) < ChainStart(d) || (ChainStart(c) == ChainStart(d) && id <= other)
  }

  ghost predicate StartOrder(plan: Plan, ids: seq<int>) {
    |ids| == |plan| && forall i, j :: 0 <= i < j < |plan| ==> Precedes(plan[i], ids[i], plan[j], ids[j])
  }

  lemma PrecedesIsLex(b: Block, c: Block)
    ensures LexLe(SortKey(b, true), SortKey(c, true)) <==> Precedes(b.trips, b.id, c.trips, c.id)
  {
    LexPair(b.StartTime(), b.id, c.StartTime(), c.id);
  }

  /** The id of block i once the tail of block `at` is a block of its own: moved up by one behind that block. */
  ghost function NewId(plan: Plan, ids: seq<int>, at: nat, tail: Chain, tailId: int, i: nat): int
    requires at < |plan| == |ids| && i < |plan|
  {
    if i == at then ids[i] else if i > at && Precedes(tail, tailId, plan[i], ids[i]) then i + 2 else i + 1
  }

  /** The new list: the old one with block `at` replaced by a head and a tail that starts later. */
  ghost predicate TailSplit(bs: seq<Block>, blocks: seq<Block>, at: nat)
    reads Objs(bs), Objs(blocks)
  {
    && at < |bs| && |blocks| == |bs| + 1
    && (forall i :: 0 <= i < |bs| && i != at ==> blocks[if i < at then i else i + 1] == bs[i])
    && blocks[at].id == bs[at].id && ChainStart(blocks[at].trips) == ChainStart(bs[at].trips)
    && ChainStart(bs[at].trips) < ChainStart(blocks[at + 1].trips)
  }

  lemma SplitPrecedes(bs: seq<Block>, blocks: seq<Block>, at: nat, i: nat, j: nat)
    requires TailSplit(bs, blocks, at) && StartOrder(View(bs), BlockIds(bs)) && i < j < |blocks| && i != at + 1
    ensures LexLe(SortKey(blocks[i], true), SortKey(blocks[j], true))
  {
    hide ViewTo, BlockIdsTo, LexLe;
    PrecedesIsLex(blocks[i], blocks[j]);
    var k := if i <= at then i else i - 1;
    var l := if j <= at then j else j - 1;
    assert j != at + 1 ==> k < l && Precedes(View(bs)[k], BlockIds(bs)[k], View(bs)[l], BlockIds(bs)[l]);
    assert j == at + 1 && i < at ==> Precedes(View(bs)[i], BlockIds(bs)[i], View(bs)[at], BlockIds(bs)[at]);
  }

  lemma SplitKeys(bs: seq<Block>, blocks: seq<Block>, at: nat, keyed: seq<Keyed<Block>>)
    requires TailSplit(bs, blocks, at) && StartOrder(View(bs), BlockIds(bs))
    requires Items(keyed) == blocks && KeyedBy(keyed, true)
    ensures Sorted(keyed[at + 2..]) && Leads(keyed[..at + 1], keyed[at + 1..])
  {
    assert |keyed| == |blocks| && at + 1 < |keyed|;
    hide TailSplit, StartOrder, ViewTo, BlockIdsTo, LexLe, SortKey;
    forall i, j | 0 <= i < j < |keyed| && i != at + 1 ensures LexLe(keyed[i].key, keyed[j].key) {
      SplitPrecedes(bs, blocks, at, i, j);
      assert keyed[i] in keyed && keyed[j] in keyed;
      assert keyed[i].item == blocks[i] && keyed[j].item == blocks[j];
    }
    var front, rest := keyed[..at + 1], keyed[at + 1..];
    forall i | 0 <= i < |front| ensures InFront(front[i], front[i + 1..] + rest) {
      assert front[i + 1..] + rest == keyed[i + 1..];
    }
  }

  lemma SortTail<T>(keyed: seq<Keyed<T>>, at: nat)
    requires at + 1 < |keyed| && Sorted(keyed[at + 2..]) && Leads(keyed[..at + 1], keyed[at + 1..])
    ensures Sort(keyed) == keyed[..at + 1] + Insert(keyed[at + 1], keyed[at + 2..])
  {
    hide Insert, LexLe;
    assert keyed[..at + 1] + keyed[at + 1..] == keyed;
    SortBehind(keyed[..at + 1], keyed[at + 1..]);
    assert keyed[at + 1..][1..] == keyed[at + 2..];
    SortOfSorted(keyed[at + 2..]);
  }

  lemma OrderedKeys(blocks: seq<Block>)
    requires NoEmptyChain(View(blocks))
    ensures Ordered(blocks) == Items(Sort(KeyBlocks(blocks, true)))
  {
    WithTripsView(blocks);
  }

  lemma KeyOf(keyed: seq<Keyed<Block>>, k: nat)
    requires KeyedBy(keyed, true) && k < |keyed|
    ensures keyed[k].key == SortKey(keyed[k].item, true)
  {
    assert keyed[k] in keyed;
  }

  lemma TailPlace<T>(keyed: seq<Keyed<T>>, at: nat, i: nat)
    requires at + 1 < |keyed| && Sorted(keyed[at + 2..]) && Leads(keyed[..at + 1], keyed[at + 1..])
    requires i < |keyed| - 1 && i != at
    ensures i < at ==> Sort(keyed)[i] == keyed[i]
    ensures i > at ==> Sort(keyed)[if LexLe(keyed[at + 1].key, keyed[i + 1].key) then i + 1 else i] == keyed[i + 1]
  {
    hide Sort, Insert, Leads, Sorted, LexLe;
    SortTail(keyed, at);
    if i > at {
      RestPlace(keyed[at + 1], keyed[at + 2..], i - at - 1);
      var k := if LexLe(keyed[at + 1].key, keyed[i + 1].key) then i + 1 else i;
      assert Sort(keyed)[k] == Insert(keyed[at + 1], keyed[at + 2..])[k - at - 1];
    }
  }

  lemma RestPlace<T>(x: Keyed<T>, rest: seq<Keyed<T>>, j: nat)
    requires Sorted(rest) && j < |rest|
    ensures Insert(x, rest)[if LexLe(x.key, rest[j].key) then j + 1 else j] == rest[j]
  {
    hide Insert, Sorted, LexLe;
    InsertPlaces(x, rest);
  }

  lemma NewIdOf(bs: seq<Block>, at: nat, tail: Block, i: nat)
    requires at < |bs| && i < |bs| && i != at
    ensures NewId(View(bs), BlockIds(bs), at, tail.trips, tail.id, i) ==
      if i > at && Precedes(tail.trips, tail.id, bs[i].trips, bs[i].id) then i + 2 else i + 1
  {
    hide ViewTo, BlockIdsTo;
  }

  /** Where renumbering puts a block that was not cut. */
  lemma OrderedSplit(bs: seq<Block>, blocks: seq<Block>, at: nat, i: nat)
    requires TailSplit(bs, blocks, at) && StartOrder(View(bs), BlockIds(bs)) && NoEmptyChain(View(blocks))
    requires i < |bs| && i != at
    ensures var k := NewId(View(bs), BlockIds(bs), at, blocks[at + 1].trips, blocks[at + 1].id, i) - 1;
      0 <= k < |Ordered(blocks)| && Ordered(blocks)[k] == bs[i]
  {
    hide ViewTo, BlockIdsTo, LexLe, Sort, Insert, Leads, Ordered, Sorted, StartOrder, SortKey, NewId;
    var keyed := KeyBlocks(blocks, true);
    OrderedKeys(blocks);
    SplitKeys(bs, blocks, at, keyed);
    NewIdOf(bs, at, blocks[at + 1], i);
    TailPlace(keyed, at, i);
    hide KeyBlocks, KeyedBy;
    if i > at {
      KeyOf(keyed, at + 1);
      KeyOf(keyed, i + 1);
      PrecedesIsLex(blocks[at + 1], bs[i]);
    }
  }

  /** The ids after only block `at` was cut and the new list was renumbered; the new block came in with `firstId`. */
  ghost function NewIds(plan: Plan, ids: seq<int>, cuts: seq<nat>, at: nat, firstId: int): (r: seq<int>)
    requires SoleCut(cuts, at) && CutsFit(plan, cuts) && |ids| == |plan| == |cuts|
    ensures |r| == |ids|
    ensures forall i :: 0 <= i < |ids| ==> r[i] == NewId(plan, ids, at, plan[at][cuts[at]..], firstId, i)
  {
    seq(|ids|, i requires 0 <= i < |ids| => NewId(plan, ids, at, plan[at][cuts[at]..], firstId, i))
  }

  lemma TailIsLater(plan: Plan, cuts: seq<nat>, at: nat, p: Params)
    requires Proper(plan, p) && CutsFit(plan, cuts) && |cuts| == |plan| && SoleCut(cuts, at)
    ensures 0 < cuts[at] < |plan[at]| && ChainStart(plan[at]) < ChainStart(plan[at][cuts[at]..])
    ensures ChainStart(plan[at][..cuts[at]]) == ChainStart(plan[at]) && NoEmptyChain(CutAll(plan, cuts, |cuts|))
  {
    hide BlockFeasible, HalvesAt, CutAll, CutCount, PoolTo;
    CutAllOk(plan, cuts, |cuts|, p);
    PoolWellTimed(plan, at);
    FeasibleOrdered(plan[at], p, 0, cuts[at]);
  }

  lemma PlacesKept(bs: seq<Block>, blocks: seq<Block>, cuts: seq<nat>, at: nat)
    requires SoleCut(cuts, at) && |cuts| == |bs| && KeepPlaces(bs, blocks, cuts)
    ensures |blocks| == |bs| + 1
    ensures forall i :: 0 <= i < |bs| && i != at ==> blocks[if i < at then i else i + 1] == bs[i]
  {
    hide CutCount;
    forall n | 0 <= n <= |cuts| ensures CutCount(cuts, n) == if n <= at then 0 else 1 {
      SoleCount(cuts, at, n);
    }
  }

  lemma SplitIsTail(bs: seq<Block>, blocks: seq<Block>, cuts: seq<nat>, at: nat, firstId: int, p: Params)
    requires Proper(View(bs), p) && CutsFit(View(bs), cuts) && |cuts| == |bs| && SoleCut(cuts, at)
    requires KeepPlaces(bs, blocks, cuts) && View(blocks) == CutAll(View(bs), cuts, |cuts|)
    requires BlockIds(blocks) == HalfIds(BlockIds(bs), cuts, firstId, |cuts|)
    ensures TailSplit(bs, blocks, at) && NoEmptyChain(View(blocks))
    ensures blocks[at + 1].trips == View(bs)[at][cuts[at]..] && blocks[at + 1].id == firstId
  {
    hide ViewTo, BlockIdsTo, KeepPlaces, CutAll, HalfIds, Proper;
    TailIsLater(View(bs), cuts, at, p);
    PlacesKept(bs, blocks, cuts, at);
    SoleCutLists(View(bs), BlockIds(bs), cuts, at, firstId, |cuts|);
    assert blocks[at].trips == View(blocks)[at] && blocks[at + 1].trips == View(blocks)[at + 1];
    assert blocks[at].id == BlockIds(blocks)[at] && blocks[at + 1].id == BlockIds(blocks)[at + 1];
  }

  lemma PlacesBy(bs: seq<Block>, blocks: seq<Block>, at: nat, ids: seq<int>)
    requires TailSplit(bs, blocks, at) && StartOrder(View(bs), BlockIds(bs)) && NoEmptyChain(View(blocks))
    requires |ids| == |bs| && forall i :: 0 <= i < |bs| && i != at ==>
      ids[i] == NewId(View(bs), BlockIds(bs), at, blocks[at + 1].trips, blocks[at + 1].id, i)
    ensures PlacedBy(bs, Ordered(blocks), ids, at)
  {
    hide ViewTo, BlockIdsTo, Ordered, NewId, StartOrder;
    forall i | 0 <= i < |bs| && i != at
      ensures 0 < ids[i] <= |Ordered(blocks)| && Ordered(blocks)[ids[i] - 1] == bs[i]
    {
      OrderedSplit(bs, blocks, at, i);
    }
  }

  /** Renumbering a list with a single cut gives every uncut block its new id. */
  lemma PlacesAfter(bs: seq<Block>, blocks: seq<Block>, cuts: seq<nat>, at: nat, firstId: int, p: Params)
    requires Proper(View(bs), p) && CutsFit(View(bs), cuts) && |cuts| == |bs| && SoleCut(cuts, at)
    requires KeepPlaces(bs, blocks, cuts) && View(blocks) == CutAll(View(bs), cuts, |cuts|)
    requires BlockIds(blocks) == HalfIds(BlockIds(bs), cuts, firstId, |cuts|)
    requires StartOrder(View(bs), BlockIds(bs))
    ensures PlacedBy(bs, Ordered(blocks), NewIds(View(bs), BlockIds(bs), cuts, at, firstId), at)
  {
    SplitIsTail(bs, blocks, cuts, at, firstId, p);
    hide ViewTo, BlockIdsTo, KeepPlaces, CutAll, HalfIds, TailSplit, Ordered, StartOrder, NewId, CutsFit, Proper;
    PlacesBy(bs, blocks, at, NewIds(View(bs), BlockIds(bs), cuts, at, firstId));
  }

  /** Every block but one stands where its new id says. */
  ghost predicate PlacedBy(bs: seq<Block>, ordered: seq<Block>, ids: seq<int>, at: nat) {
    |ids| == |bs| && forall i :: 0 <= i < |bs| && i != at ==> 0 < ids[i] <= |ordered| && ordered[ids[i] - 1] == bs[i]
  }
}
