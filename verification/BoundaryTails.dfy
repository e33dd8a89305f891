// Relocating whole short blocks at a chunk boundary (`boundary_tail_relocation`).
module BoundaryTails {
  import opened Domain
  import opened Kernel
  import opened Plans
  import opened Blocks
  import opened Moves
  import opened Boundary

  ghost function Absorbed(plan: Plan, donor: nat, recv: nat): Plan
    requires donor < |plan| && recv < |plan| && donor != recv
  {
    plan[recv := plan[recv] + plan[donor]][donor := []]
  }

  lemma AbsorbedPool(plan: Plan, donor: nat, recv: nat)
    requires donor < |plan| && recv < |plan| && donor != recv
    ensures Pool(Absorbed(plan, donor, recv)) == Pool(plan)
  {
    hide PoolTo;
    var grown := plan[recv := plan[recv] + plan[donor]];
    PoolUpdate(plan, recv, plan[recv] + plan[donor]);
    PoolUpdate(grown, donor, []);
    MoveBetween(Pool(plan), multiset(plan[recv]), multiset{}, multiset(plan[donor]));
    assert multiset{} + multiset(plan[donor]) == multiset(plan[donor]);
  }

  lemma AbsorbedFacts(plan: Plan, donor: nat, recv: nat, p: Params)
    requires donor < |plan| && recv < |plan| && donor != recv && plan[donor] != [] && NoEmptyChain(plan)
    ensures Vehicles(Absorbed(plan, donor, recv)) == |plan| - 1
    ensures PlanFeasible(plan, p) && BlockFeasible(plan[recv] + plan[donor], p) ==>
      PlanFeasible(Absorbed(plan, donor, recv), p)
  {
    hide BlockFeasible, DropEmptyTo;
    VehiclesCount(Absorbed(plan, donor, recv));
    OneEmpty(Absorbed(plan, donor, recv), donor);
    EmptyFeasible(p);
  }

  lemma EmptyFeasible(p: Params)
    ensures BlockFeasible([], p)
  {
  }

  lemma OneEmpty(plan: Plan, k: nat)
    requires k < |plan| && plan[k] == [] && forall i :: 0 <= i < |plan| && i != k ==> plan[i] != []
    ensures multiset(plan)[[]] == 1
  {
    Unplug(plan, k);
    var rest := Without(plan, k);
    assert [] !in rest;
  }

  /** Donor i may be emptied into block j. */
  predicate MayAbsorb(plan: Plan, inBoundary: seq<bool>, i: nat, j: nat, raw: RawParams, maxTail: int)
    requires |inBoundary| == |plan| && i < |plan| && j < |plan|
  {
    i != j && inBoundary[i] && |plan[i]| <= maxTail && TailFits(plan[j], plan[i], raw)
  }

  /** No listed short block can be emptied into another. */
  ghost predicate NoneAbsorbs(bs: seq<Block>, boundary: set<int>, raw: RawParams, maxTail: int)
    reads Objs(bs)
  {
    forall b, c :: b in Objs(bs) && c in Objs(bs) && b != c ==>
      !(b.id in boundary && |b.trips| <= maxTail && TailFits(c.trips, b.trips, raw))
  }

  /** The same on values: a plan with the ids its blocks carried. */
  ghost predicate Stuck(plan: Plan, ids: seq<int>, boundary: set<int>, raw: RawParams, maxTail: int) {
    && |ids| == |plan|
    && forall i, j :: 0 <= i < |plan| && 0 <= j < |plan| && i != j ==>
         !(ids[i] in boundary && |plan[i]| <= maxTail && TailFits(plan[j], plan[i], raw))
  }

  lemma StuckExact(bs: seq<Block>, boundary: set<int>, raw: RawParams, maxTail: int)
    requires Distinct(bs)
    ensures NoneAbsorbs(bs, boundary, raw, maxTail) <==> Stuck(View(bs), BlockIds(bs), boundary, raw, maxTail)
  {
    hide TailFits, ViewTo, BlockIdsTo;
    if NoneAbsorbs(bs, boundary, raw, maxTail) {
      forall i, j | 0 <= i < |bs| && 0 <= j < |bs| && i != j
        ensures !(BlockIds(bs)[i] in boundary && |View(bs)[i]| <= maxTail && TailFits(View(bs)[j], View(bs)[i], raw))
      {
        assert bs[i] in Objs(bs) && bs[j] in Objs(bs) && bs[i] != bs[j];
      }
    }
    if Stuck(View(bs), BlockIds(bs), boundary, raw, maxTail) {
      forall b, c | b in Objs(bs) && c in Objs(bs) && b != c
        ensures !(b.id in boundary && |b.trips| <= maxTail && TailFits(c.trips, b.trips, raw))
      {
        var i :| 0 <= i < |bs| && bs[i] == b;
        var j :| 0 <= j < |bs| && bs[j] == c;
        assert BlockIds(bs)[i] == b.id && View(bs)[i] == b.trips && View(bs)[j] == c.trips;
      }
    }
  }

  /** The chain starts with the given chain o and carries its id. */
  ghost predicate Grew(c: Chain, id: int, before: Plan, beforeIds: seq<int>, o: int) {
    0 <= o < |before| && o < |beforeIds| && id == beforeIds[o] && before[o] <= c
  }

  ghost predicate GrewAny(c: Chain, id: int, before: Plan, beforeIds: seq<int>) {
    exists o :: Grew(c, id, before, beforeIds, o)
  }

  /** Each block grew from one of the given chains. */
  ghost predicate GrewFrom(after: Plan, ids: seq<int>, before: Plan, beforeIds: seq<int>) {
    && |ids| == |after| && |beforeIds| == |before|
    && forall k :: 0 <= k < |after| ==> GrewAny(after[k], ids[k], before, beforeIds)
  }

  /** The same for block objects. */
  ghost predicate Descend(bs: seq<Block>, before: Plan, beforeIds: seq<int>)
    reads Objs(bs)
  {
    && |beforeIds| == |before|
    && forall b :: b in Objs(bs) ==> GrewAny(b.trips, b.id, before, beforeIds)
  }

  lemma DescendIs(bs: seq<Block>, before: Plan, beforeIds: seq<int>)
    requires Descend(bs, before, beforeIds)
    ensures GrewFrom(View(bs), BlockIds(bs), before, beforeIds)
  {
    hide ViewTo, BlockIdsTo, GrewAny;
    forall k | 0 <= k < |bs| ensures GrewAny(View(bs)[k], BlockIds(bs)[k], before, beforeIds) {
      assert bs[k] in Objs(bs) && GrewAny(bs[k].trips, bs[k].id, before, beforeIds);
    }
  }

  /** The first donor and receiver in scan order. */
  method FindRelocation(plan: Plan, inBoundary: seq<bool>, raw: RawParams, maxTail: int)
    returns (found: bool, donor: nat, recv: nat)
    requires |inBoundary| == |plan|
    ensures found ==> donor < |plan| && recv < |plan| && MayAbsorb(plan, inBoundary, donor, recv, raw, maxTail)
    ensures found ==> forall i, j :: 0 <= i < |plan| && 0 <= j < |plan| && (i < donor || (i == donor && j < recv)) ==>
      !MayAbsorb(plan, inBoundary, i, j, raw, maxTail)
    ensures !found ==> forall i, j :: 0 <= i < |plan| && 0 <= j < |plan| ==>
      !MayAbsorb(plan, inBoundary, i, j, raw, maxTail)
  {
    hide TailFits;
    for i := 0 to |plan|
      invariant forall a, b :: 0 <= a < i && 0 <= b < |plan| ==> !MayAbsorb(plan, inBoundary, a, b, raw, maxTail)
    {
      if inBoundary[i] && |plan[i]| <= maxTail {
        for j := 0 to |plan|
          invariant forall b :: 0 <= b < j ==> !MayAbsorb(plan, inBoundary, i, b, raw, maxTail)
        {
          if i != j && TailFits(plan[j], plan[i], raw) {
            return true, i, j;
          }
        }
      }
    }
    return false, 0, 0;
  }

  function Membership(bs: seq<Block>, ids: set<int>, n: nat): (r: seq<bool>)
    requires n <= |bs|
    reads Objs(bs)`id
    ensures |r| == n && forall i :: 0 <= i < n ==> r[i] == (bs[i].id in ids)
  {
    if n == 0 then [] else Membership(bs, ids, n - 1) + [bs[n - 1].id in ids]
  }

  /** What relocation and swapping keep; feasibility when the parameters are safe for them. */
  ghost predicate Stitched(before: Plan, after: Plan, raw: RawParams, safe: bool) {
    && Pool(after) == Pool(before) && NoEmptyChain(after) && |after| <= |before|
    && (PlanFeasible(before, Extract(raw)) && WellTimedPool(Pool(before)) && safe ==> PlanFeasible(after, Extract(raw)))
  }

  /** Empties one donor into its receiver and drops it. */
  method Relocate(blocks: seq<Block>, donor: nat, recv: nat, raw: RawParams) returns (r: seq<Block>)
    requires Distinct(blocks) && NoEmptyChain(View(blocks))
    requires donor < |blocks| && recv < |blocks| && donor != recv
    requires TailFits(View(blocks)[recv], View(blocks)[donor], raw)
    modifies Objs(blocks)`trips
    ensures Distinct(r) && Objs(r) <= Objs(blocks) && |r| == |blocks| - 1
    ensures Stitched(old(View(blocks)), View(r), raw, TailsOk(raw))
    ensures forall b :: b in Objs(r) ==> old(b.trips) <= b.trips
    ensures Objs(r) == Objs(blocks) - {blocks[donor]}
  {
    hide BlockFeasible, PoolTo, ViewTo, BlockIdsTo, TailFits, WithTripsTo, DropEmptyTo;
    ghost var plan := View(blocks);
    ghost var p := Extract(raw);
    AbsorbedPool(plan, donor, recv);
    AbsorbedFacts(plan, donor, recv, p);
    if PlanFeasible(plan, p) && WellTimedPool(Pool(plan)) && TailsOk(raw) {
      PoolWellTimed(plan, recv);
      PoolWellTimed(plan, donor);
      TailFitsFeasible(plan[recv], plan[donor], raw);
    }
    blocks[recv].trips := blocks[recv].trips + blocks[donor].trips;
    blocks[donor].trips := [];
    ghost var mid := View(blocks);
    assert mid == Absorbed(plan, donor, recv);
    r := WithTrips(blocks);
    WithTripsView(blocks);
    DropEmptyKeeps(mid, p);
    assert |r| == |View(r)|;
    assert forall k :: 0 <= k < |blocks| ==> (mid[k] == [] <==> k == donor);
    OthersStay(blocks, donor);
  }

  /** With one empty block the others are kept. */
  lemma OthersStay(blocks: seq<Block>, donor: nat)
    requires Distinct(blocks) && donor < |blocks|
    requires forall k :: 0 <= k < |blocks| ==> (blocks[k].trips == [] <==> k == donor)
    ensures Objs(WithTrips(blocks)) == Objs(blocks) - {blocks[donor]}
  {
    hide ViewTo, WithTripsTo, DropEmptyTo;
    var r := WithTrips(blocks);
    WithTripsObjs(blocks, |blocks|);
    WithTripsView(blocks);
    DropEmptyMembers(View(blocks), |View(blocks)|);
    forall b ensures b in Objs(r) <==> b in Objs(blocks) - {blocks[donor]} {
      if b in Objs(r) {
        var k :| 0 <= k < |r| && r[k] == b;
        assert View(r)[k] in DropEmpty(View(blocks));
      }
    }
  }

  /** `boundary_tail_relocation`: each relocation removes one block; at the end no listed short block fits another. */
  method TailRelocation(vsp: VspSolution, raw: RawParams, boundary: set<int>, maxTail: int)
    returns (res: VspSolution, relocations: nat, ghost ids: seq<int>)
    requires NoEmptyChain(View(vsp.blocks))
    ensures Stitched(old(View(vsp.blocks)), View(res.blocks), raw, TailsOk(raw))
    ensures |res.blocks| + relocations == |vsp.blocks| && res.unassigned == vsp.unassigned
    ensures relocations == 0 ==> res == vsp && ids == old(BlockIds(vsp.blocks))
    ensures relocations > 0 ==> res != vsp && SortedByStart(View(res.blocks))
    ensures relocations == 0 <==> Stuck(old(View(vsp.blocks)), old(BlockIds(vsp.blocks)), boundary, raw, maxTail)
    ensures |ids| == |res.blocks|
    ensures Survive(old(View(vsp.blocks)), old(BlockIds(vsp.blocks)), View(res.blocks), ids, boundary)
    ensures boundary != {} ==> Stuck(View(res.blocks), ids, boundary, raw, maxTail)
    ensures GrewFrom(View(res.blocks), ids, old(View(vsp.blocks)), old(BlockIds(vsp.blocks)))
    ensures relocations == 0 && boundary != {} && Distinct(vsp.blocks) ==>
      NoneAbsorbs(vsp.blocks, boundary, raw, maxTail)
    ensures relocations > 0 ==> Distinct(res.blocks) && fresh(Objs(res.blocks)) && DistinctBlockIds(res.blocks)
    ensures relocations > 0 ==> forall i :: 0 <= i < |res.blocks| ==> res.blocks[i].id == i + 1
  {
    hide BlockFeasible, PoolTo, ViewTo, BlockIdsTo, TailFits, Stuck, Descend, GrewFrom, Stitched, NoneAbsorbs, Alive;
    hide Survive, InProgress;
    hide SortedByStart;
    ghost var plan := View(vsp.blocks);
    ids := BlockIds(vsp.blocks);
    ghost var oldIds := ids;
    relocations := 0;
    StitchedSelf(plan, raw);
    SurviveSelf(plan, ids, boundary);
    GrewSelf(plan, ids);
    if boundary == {} {
      NoBoundary(plan, ids, raw, maxTail);
      return vsp, 0, ids;
    }
    var blocks;
    blocks, relocations := RelocateAll(vsp, raw, boundary, maxTail, plan, oldIds);
    assert View(vsp.blocks) == plan;
    if relocations == 0 {
      res := vsp;
    } else {
      InProgressIs(blocks, plan, oldIds, boundary, raw);
      ids := BlockIds(blocks);
      StuckExact(blocks, boundary, raw, maxTail);
      DescendIs(blocks, plan, oldIds);
      AliveIs(blocks, plan, oldIds, boundary);
      ghost var final := View(blocks);
      Renumber(blocks);
      assert View(blocks) == final && View(vsp.blocks) == plan;
      res := VspSolution(blocks, vsp.unassigned);
    }
  }

  /** The outer loop, on copies of the blocks. */
  method RelocateAll(vsp: VspSolution, raw: RawParams, boundary: set<int>, maxTail: int, ghost plan: Plan,
                     ghost oldIds: seq<int>)
    returns (blocks: seq<Block>, relocations: nat)
    requires View(vsp.blocks) == plan && BlockIds(vsp.blocks) == oldIds && NoEmptyChain(plan)
    ensures Distinct(blocks) && fresh(Objs(blocks)) && |blocks| + relocations == |plan|
    ensures InProgress(blocks, plan, oldIds, boundary, raw) && SortedByStart(View(blocks))
    ensures NoneAbsorbs(blocks, boundary, raw, maxTail)
    ensures relocations == 0 <==> Stuck(plan, oldIds, boundary, raw, maxTail)
    ensures relocations == 0 && Distinct(vsp.blocks) ==> NoneAbsorbs(vsp.blocks, boundary, raw, maxTail)
  {
    hide BlockFeasible, PoolTo, ViewTo, BlockIdsTo, TailFits, Stuck, Descend, InProgress, Stitched, NoneAbsorbs, Alive;
    hide SortedByStart;
    ghost var stuck := Stuck(plan, oldIds, boundary, raw, maxTail);
    blocks := CopyBlocks(vsp.blocks);
    relocations := 0;
    AtFirst(blocks, plan, oldIds, boundary, raw);
    assert BlockIds(blocks) == oldIds;
    StuckExact(blocks, boundary, raw, maxTail);
    var changed := true;
    while changed
      invariant Distinct(blocks) && fresh(Objs(blocks))
      invariant InProgress(blocks, plan, oldIds, boundary, raw) && |blocks| + relocations == |plan|
      invariant !changed ==> NoneAbsorbs(blocks, boundary, raw, maxTail) && SortedByStart(View(blocks))
      invariant View(vsp.blocks) == plan && BlockIds(vsp.blocks) == oldIds
      invariant if relocations > 0 then !stuck else changed ==> (NoneAbsorbs(blocks, boundary, raw, maxTail) <==> stuck)
      invariant relocations == 0 && !changed ==> stuck
      decreases |blocks|, changed
    {
      blocks, changed := RelocateOnce(blocks, raw, boundary, maxTail, plan, oldIds);
      if changed { relocations := relocations + 1; }
    }
    if Distinct(vsp.blocks) { StuckExact(vsp.blocks, boundary, raw, maxTail); }
  }

  lemma AtFirst(bs: seq<Block>, plan: Plan, ids: seq<int>, boundary: set<int>, raw: RawParams)
    requires View(bs) == plan && |ids| == |bs| && forall i :: 0 <= i < |bs| ==> bs[i].id == ids[i]
    requires NoEmptyChain(plan)
    ensures InProgress(bs, plan, ids, boundary, raw)
  {
    StitchedSelf(plan, raw);
    DescendSelf(bs, plan, ids, boundary);
  }

  /** Every block off the boundary is still there, grown or not. */
  ghost predicate Survive(before: Plan, beforeIds: seq<int>, after: Plan, ids: seq<int>, boundary: set<int>) {
    && |beforeIds| == |before| && |ids| == |after|
    && forall o :: 0 <= o < |before| && beforeIds[o] !in boundary ==> GrownIn(before, beforeIds, after, ids, o)
  }

  ghost predicate GrownIn(before: Plan, beforeIds: seq<int>, after: Plan, ids: seq<int>, o: int)
    requires |ids| == |after|
  {
    exists k :: 0 <= k < |after| && Grew(after[k], ids[k], before, beforeIds, o)
  }

  /** The same for block objects. */
  ghost predicate Alive(bs: seq<Block>, before: Plan, beforeIds: seq<int>, boundary: set<int>)
    reads Objs(bs)
  {
    && |beforeIds| == |before|
    && forall o :: 0 <= o < |before| && beforeIds[o] !in boundary ==> Carried(bs, before, beforeIds, o)
  }

  ghost predicate Carried(bs: seq<Block>, before: Plan, beforeIds: seq<int>, o: int)
    reads Objs(bs)
  {
    exists b :: b in Objs(bs) && Grew(b.trips, b.id, before, beforeIds, o)
  }

  lemma AliveIs(bs: seq<Block>, before: Plan, beforeIds: seq<int>, boundary: set<int>)
    requires Alive(bs, before, beforeIds, boundary)
    ensures Survive(before, beforeIds, View(bs), BlockIds(bs), boundary)
  {
    hide ViewTo, BlockIdsTo, Grew;
    forall o | 0 <= o < |before| && beforeIds[o] !in boundary
      ensures GrownIn(before, beforeIds, View(bs), BlockIds(bs), o)
    {
      assert Carried(bs, before, beforeIds, o);
      var b :| b in Objs(bs) && Grew(b.trips, b.id, before, beforeIds, o);
      var k :| 0 <= k < |bs| && bs[k] == b;
      assert Grew(View(bs)[k], BlockIds(bs)[k], before, beforeIds, o);
    }
  }

  lemma SurviveSelf(plan: Plan, ids: seq<int>, boundary: set<int>)
    requires |ids| == |plan|
    ensures Survive(plan, ids, plan, ids, boundary)
  {
    forall o | 0 <= o < |plan| ensures GrownIn(plan, ids, plan, ids, o) {
      assert Grew(plan[o], ids[o], plan, ids, o);
    }
  }

  lemma NoBoundary(plan: Plan, ids: seq<int>, raw: RawParams, maxTail: int)
    requires |ids| == |plan|
    ensures Stuck(plan, ids, {}, raw, maxTail)
  {
  }

  lemma StitchedSelf(plan: Plan, raw: RawParams)
    requires NoEmptyChain(plan)
    ensures Stitched(plan, plan, raw, TailsOk(raw))
  {
  }

  lemma DescendSelf(bs: seq<Block>, plan: Plan, ids: seq<int>, boundary: set<int>)
    requires View(bs) == plan && |ids| == |bs| && forall i :: 0 <= i < |bs| ==> bs[i].id == ids[i]
    ensures Descend(bs, plan, ids) && Alive(bs, plan, ids, boundary)
  {
    hide ViewTo, BlockIdsTo;
    forall b | b in Objs(bs) ensures GrewAny(b.trips, b.id, plan, ids) {
      var o :| 0 <= o < |bs| && bs[o] == b;
      assert Grew(b.trips, b.id, plan, ids, o);
    }
    forall o | 0 <= o < |plan| ensures Carried(bs, plan, ids, o) {
      assert bs[o] in Objs(bs) && Grew(bs[o].trips, bs[o].id, plan, ids, o);
    }
  }

  lemma GrewSelf(plan: Plan, ids: seq<int>)
    requires |ids| == |plan|
    ensures GrewFrom(plan, ids, plan, ids)
  {
    forall k | 0 <= k < |plan| ensures GrewAny(plan[k], ids[k], plan, ids) {
      assert Grew(plan[k], ids[k], plan, ids, k);
    }
  }

  /** What every round keeps of the given plan. */
  ghost predicate InProgress(blocks: seq<Block>, plan: Plan, ids: seq<int>, boundary: set<int>, raw: RawParams)
    reads Objs(blocks)
  {
    && Stitched(plan, View(blocks), raw, TailsOk(raw))
    && Descend(blocks, plan, ids) && Alive(blocks, plan, ids, boundary)
  }

  lemma InProgressIs(blocks: seq<Block>, plan: Plan, ids: seq<int>, boundary: set<int>, raw: RawParams)
    requires InProgress(blocks, plan, ids, boundary, raw)
    ensures Stitched(plan, View(blocks), raw, TailsOk(raw)) && NoEmptyChain(View(blocks))
    ensures Descend(blocks, plan, ids) && Alive(blocks, plan, ids, boundary)
  {
  }

  /** Reordering the blocks changes nothing of it. */
  lemma InProgressSorted(blocks: seq<Block>, r: seq<Block>, plan: Plan, ids: seq<int>, boundary: set<int>,
                         raw: RawParams)
    requires InProgress(blocks, plan, ids, boundary, raw)
    requires Objs(r) == Objs(blocks) && multiset(View(r)) == multiset(View(blocks))
    ensures InProgress(r, plan, ids, boundary, raw)
  {
    hide ViewTo, BlockIdsTo, Grew, GrewAny, BlockFeasible;
    Reordered(plan, View(blocks), View(r), raw);
    forall o | 0 <= o < |plan| && ids[o] !in boundary ensures Carried(r, plan, ids, o) {
      assert Carried(blocks, plan, ids, o);
    }
  }

  /** One relocation keeps it: blocks only grow, and only a listed one leaves. */
  method RelocateStep(blocks: seq<Block>, donor: nat, recv: nat, raw: RawParams, ghost plan: Plan, ghost ids: seq<int>,
                      ghost boundary: set<int>)
    returns (r: seq<Block>)
    requires Distinct(blocks) && InProgress(blocks, plan, ids, boundary, raw)
    requires donor < |blocks| && recv < |blocks| && donor != recv && blocks[donor].id in boundary
    requires TailFits(View(blocks)[recv], View(blocks)[donor], raw)
    modifies Objs(blocks)`trips
    ensures Distinct(r) && Objs(r) <= Objs(blocks) && |r| == |blocks| - 1
    ensures InProgress(r, plan, ids, boundary, raw)
  {
    hide BlockFeasible, PoolTo, ViewTo, BlockIdsTo, TailFits, Stitched, Grew, GrewAny;
    InProgressIs(blocks, plan, ids, boundary, raw);
    ghost var before := View(blocks);
    r := Relocate(blocks, donor, recv, raw);
    StitchedTwice(plan, before, View(r), raw);
    forall b | b in Objs(r) ensures GrewAny(b.trips, b.id, plan, ids) {
      assert b in Objs(blocks) && old(b.trips) <= b.trips && GrewAny(old(b.trips), b.id, plan, ids);
      StillGrew(old(b.trips), b.trips, b.id, plan, ids);
    }
    forall o | 0 <= o < |plan| && ids[o] !in boundary ensures Carried(r, plan, ids, o) {
      assert old(Carried(blocks, plan, ids, o));
      var b :| b in Objs(blocks) && Grew(old(b.trips), b.id, plan, ids, o);
      GrewId(old(b.trips), b.id, plan, ids, o);
      assert b in Objs(r) && old(b.trips) <= b.trips;
      GrewMore(old(b.trips), b.trips, b.id, plan, ids, o);
    }
  }

  lemma GrewId(c: Chain, id: int, before: Plan, beforeIds: seq<int>, o: int)
    requires Grew(c, id, before, beforeIds, o)
    ensures 0 <= o < |beforeIds| && id == beforeIds[o]
  {
  }

  lemma GrewMore(c: Chain, d: Chain, id: int, before: Plan, beforeIds: seq<int>, o: int)
    requires Grew(c, id, before, beforeIds, o) && c <= d
    ensures Grew(d, id, before, beforeIds, o)
  {
  }

  lemma StillGrew(c: Chain, d: Chain, id: int, before: Plan, beforeIds: seq<int>)
    requires GrewAny(c, id, before, beforeIds) && c <= d
    ensures GrewAny(d, id, before, beforeIds)
  {
    var o :| Grew(c, id, before, beforeIds, o);
    GrewMore(c, d, id, before, beforeIds, o);
  }

  /** One round of the outer loop: sort, scan, relocate. */
  method RelocateOnce(blocks: seq<Block>, raw: RawParams, boundary: set<int>, maxTail: int, ghost plan: Plan,
                      ghost ids: seq<int>)
    returns (r: seq<Block>, changed: bool)
    requires Distinct(blocks) && InProgress(blocks, plan, ids, boundary, raw)
    modifies Objs(blocks)`trips
    ensures Distinct(r) && Objs(r) <= Objs(blocks) && InProgress(r, plan, ids, boundary, raw)
    ensures |r| == |blocks| - (if changed then 1 else 0)
    ensures changed <==> !old(NoneAbsorbs(blocks, boundary, raw, maxTail))
    ensures !changed ==> SortedByStart(View(r)) && Objs(r) == Objs(blocks) && NoneAbsorbs(r, boundary, raw, maxTail)
    ensures !changed ==> forall b :: b in Objs(blocks) ==> b.trips == old(b.trips)
  {
    hide BlockFeasible, PoolTo, ViewTo, BlockIdsTo, TailFits, InProgress, SortBlocks, SortedByStart;
    r := SortBlocks(blocks, false);
    SortBlocksFacts(blocks, false);
    assert |r| == |multiset(r)| == |multiset(blocks)| == |blocks|;
    InProgressSorted(blocks, r, plan, ids, boundary, raw);
    var sorted := View(r);
    var listed := Membership(r, boundary, |r|);
    var donor, recv;
    changed, donor, recv := FindRelocation(sorted, listed, raw, maxTail);
    if !changed {
      forall b, c | b in Objs(blocks) && c in Objs(blocks) && b != c
        ensures !(b.id in boundary && |b.trips| <= maxTail && TailFits(c.trips, b.trips, raw))
      {
        var i :| 0 <= i < |r| && r[i] == b;
        var j :| 0 <= j < |r| && r[j] == c;
        assert !MayAbsorb(sorted, listed, i, j, raw, maxTail);
      }
    } else {
      ghost var gone, kept := r[donor], r[recv];
      assert gone in Objs(r) && kept in Objs(r) && gone != kept && gone.id in boundary;
      r := RelocateStep(r, donor, recv, raw, plan, ids, boundary);
    }
  }

  lemma StitchedTwice(a: Plan, b: Plan, c: Plan, raw: RawParams)
    requires Stitched(a, b, raw, TailsOk(raw)) && Stitched(b, c, raw, TailsOk(raw))
    ensures Stitched(a, c, raw, TailsOk(raw))
  {
    hide BlockFeasible;
  }

  lemma Reordered(plan: Plan, before: Plan, after: Plan, raw: RawParams)
    requires Stitched(plan, before, raw, TailsOk(raw)) && multiset(after) == multiset(before)
    ensures Stitched(plan, after, raw, TailsOk(raw)) && |after| == |before|
  {
    hide BlockFeasible;
    PoolPermute(before, after);
    NoEmptyPermute(before, after);
    assert |after| == |multiset(after)| && |before| == |multiset(before)|;
    if PlanFeasible(before, Extract(raw)) { FeasiblePermute(before, after, Extract(raw)); }
  }
}
