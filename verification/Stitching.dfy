// The restricted swap pass, and both phases in a row (`stitch_chunk_boundaries`).
module Stitching {
  import opened Domain
  import opened Kernel
  import opened Plans
  import opened Blocks
  import opened Moves
  import SwapPhase
  import opened Boundary
  import opened BoundaryTails

  ghost predicate Passed(before: Plan, after: Plan, raw: RawParams) {
    && Pool(after) == Pool(before) && |after| == |before|
    && (PlanFeasible(before, Extract(raw)) && WellTimedPool(Pool(before)) && HeadsOk(raw) ==>
      PlanFeasible(after, Extract(raw)))
  }

  lemma PassedStep(before: Plan, now: Plan, i: nat, j: nat, raw: RawParams)
    requires Passed(before, now, raw) && i < j < |now| && HeadJoins(now[i], now[j], raw)
    ensures Passed(before, HeadMoved(now, i, j), raw)
  {
    hide BlockFeasible, EdgeFeasible;
    HeadMovedPool(now, i, j);
    if PlanFeasible(before, Extract(raw)) && WellTimedPool(Pool(before)) && HeadsOk(raw) {
      PoolWellTimed(now, i);
      PoolWellTimed(now, j);
      HeadJoinsFeasible(now[i], now[j], raw);
      HeadMovedFeasible(now, i, j, Extract(raw));
    }
  }

  /** One move: at least one of the two blocks is listed, and the checks pass. */
  ghost predicate Moved(a: Plan, b: Plan, listed: seq<bool>, raw: RawParams) {
    |listed| == |a| && exists i, j ::
      0 <= i < j < |a| && (listed[i] || listed[j]) && HeadJoins(a[i], a[j], raw) && b == HeadMoved(a, i, j)
  }

  ghost predicate MoveRun(run: seq<Plan>, listed: seq<bool>, raw: RawParams) {
    |run| > 0 && forall k :: 0 <= k < |run| - 1 ==> Moved(run[k], run[k + 1], listed, raw)
  }

  lemma {:induction false} RunPasses(run: seq<Plan>, listed: seq<bool>, raw: RawParams, n: nat)
    requires MoveRun(run, listed, raw) && n < |run|
    ensures Passed(run[0], run[n], raw)
  {
    hide BlockFeasible, PoolTo, EdgeFeasible, HeadsOk;
    if n > 0 {
      RunPasses(run, listed, raw, n - 1);
      var a := run[n - 1];
      assert Moved(a, run[n], listed, raw);
      var i, j :| 0 <= i < j < |a| && (listed[i] || listed[j]) && HeadJoins(a[i], a[j], raw)
        && run[n] == HeadMoved(a, i, j);
      PassedStep(run[0], a, i, j, raw);
    }
  }

  lemma RunMore(run: seq<Plan>, listed: seq<bool>, i: nat, j: nat, raw: RawParams)
    requires MoveRun(run, listed, raw) && i < j < |run[|run| - 1]| == |listed| && (listed[i] || listed[j])
    requires HeadJoins(run[|run| - 1][i], run[|run| - 1][j], raw)
    ensures MoveRun(run + [HeadMoved(run[|run| - 1], i, j)], listed, raw)
  {
    hide EdgeFeasible;
    var more := run + [HeadMoved(run[|run| - 1], i, j)];
    assert Moved(more[|run| - 1], more[|run|], listed, raw);
    forall k | 0 <= k < |more| - 1 ensures Moved(more[k], more[k + 1], listed, raw) {
      if k < |run| - 1 {
        assert Moved(run[k], run[k + 1], listed, raw);
      }
    }
  }

  lemma RunStart(plan: Plan, listed: seq<bool>, raw: RawParams)
    ensures MoveRun([plan], listed, raw)
  {
  }

  /** No head of the blocks after i and before n may join block i. */
  ghost predicate NoneJoins(plan: Plan, listed: seq<bool>, i: nat, n: nat, raw: RawParams)
    requires i < |plan| == |listed| && n <= |plan|
  {
    forall b :: i < b < n && (listed[i] || listed[b]) ==> !HeadJoins(plan[i], plan[b], raw)
  }

  /** The single pass over the pairs of blocks that touch the boundary. */
  method BoundaryPass(blocks: seq<Block>, raw: RawParams, boundary: set<int>) returns (swaps: nat, ghost run: seq<Plan>)
    requires Distinct(blocks)
    modifies Objs(blocks)`trips
    ensures MoveRun(run, old(Membership(blocks, boundary, |blocks|)), raw) && |run| == swaps + 1
    ensures run[0] == old(View(blocks)) && run[swaps] == View(blocks)
    ensures swaps == 0 ==>
      forall i :: 0 <= i < |blocks| ==> NoneJoins(run[0], old(Membership(blocks, boundary, |blocks|)), i, |blocks|, raw)
  {
    hide PoolTo, ViewTo, BlockIdsTo, HeadJoins, BlockFeasible, EdgeFeasible, MoveRun, HeadMoved;
    ghost var listed := Membership(blocks, boundary, |blocks|);
    ghost var start := View(blocks);
    swaps, run := 0, [start];
    RunStart(start, listed, raw);
    for i := 0 to |blocks|
      invariant MoveRun(run, listed, raw) && |run| == swaps + 1
      invariant run[0] == start && run[swaps] == View(blocks)
      invariant swaps == 0 ==> forall a :: 0 <= a < i ==> NoneJoins(start, listed, a, |blocks|, raw)
    {
      for j := i + 1 to |blocks|
        invariant MoveRun(run, listed, raw) && |run| == swaps + 1
        invariant run[0] == start && run[swaps] == View(blocks)
        invariant swaps == 0 ==> forall a :: 0 <= a < i ==> NoneJoins(start, listed, a, |blocks|, raw)
        invariant swaps == 0 ==> NoneJoins(start, listed, i, j, raw)
      {
        if (blocks[i].id in boundary || blocks[j].id in boundary) && HeadJoins(blocks[i].trips, blocks[j].trips, raw) {
          HeadJoinsNonEmpty(blocks[i].trips, blocks[j].trips, raw);
          RunMore(run, listed, i, j, raw);
          run := run + [HeadMoved(View(blocks), i, j)];
          SwapPhase.MoveHead(blocks, i, j);
          swaps := swaps + 1;
        }
      }
    }
  }

  lemma HeadJoinsNonEmpty(a: Chain, b: Chain, raw: RawParams)
    requires HeadJoins(a, b, raw)
    ensures a != [] && b != []
  {
  }

  // ---- which blocks the pass touches ----

  /** Chains with the ids of their blocks. */
  ghost function Tagged(plan: Plan, ids: seq<int>): (r: seq<(int, Chain)>)
    requires |ids| == |plan|
    ensures |r| == |plan| && forall i :: 0 <= i < |r| ==> r[i] == (ids[i], plan[i])
  {
    seq(|plan|, i requires 0 <= i < |plan| => (ids[i], plan[i]))
  }

  ghost function TagsOf(bs: seq<Block>): (r: seq<(int, Chain)>)
    reads Objs(bs)
    ensures |r| == |bs| && forall i :: 0 <= i < |r| ==> r[i] == (bs[i].id, bs[i].trips)
  {
    Tagged(View(bs), BlockIds(bs))
  }

  lemma UnplugTags(bs: seq<Block>, k: nat)
    requires k < |bs|
    ensures multiset(TagsOf(bs)) == multiset(TagsOf(Without(bs, k))) + multiset{(bs[k].id, bs[k].trips)}
  {
    hide TagsOf;
    assert TagsOf(Without(bs, k)) == Without(TagsOf(bs), k);
    Unplug(TagsOf(bs), k);
  }

  lemma {:induction false} TagsPermute(bs: seq<Block>, r: seq<Block>)
    requires multiset(bs) == multiset(r)
    ensures multiset(TagsOf(bs)) == multiset(TagsOf(r))
    decreases |bs|
  {
    assert |r| == |multiset(r)| == |bs|;
    if bs == [] { return; }
    hide TagsOf;
    var k := PlaceOf(r, bs[0]);
    Unplug(bs, 0);
    Unplug(r, k);
    CancelOne(multiset(Without(bs, 0)), multiset(Without(r, k)), bs[0]);
    TagsPermute(Without(bs, 0), Without(r, k));
    UnplugTags(bs, 0);
    UnplugTags(r, k);
  }

  function Listed(ids: seq<int>, boundary: set<int>): (r: seq<bool>)
    ensures |r| == |ids| && forall i :: 0 <= i < |r| ==> r[i] == (ids[i] in boundary)
  {
    seq(|ids|, i requires 0 <= i < |ids| => ids[i] in boundary)
  }

  /** The pass takes the given blocks in start order and moves only between pairs of which one carries a boundary id. */
  ghost predicate PassOver(before: Plan, beforeIds: seq<int>, run: seq<Plan>, ids: seq<int>, boundary: set<int>,
                           raw: RawParams)
  {
    && |beforeIds| == |before| && MoveRun(run, Listed(ids, boundary), raw)
    && |ids| == |run[0]| && multiset(Tagged(run[0], ids)) == multiset(Tagged(before, beforeIds))
    && SortedByStart(run[0]) && (SortedByStart(before) ==> run[0] == before && ids == beforeIds)
  }

  /** No move is possible. */
  ghost predicate Settled(plan: Plan, ids: seq<int>, boundary: set<int>, raw: RawParams) {
    |ids| == |plan| && forall i :: 0 <= i < |plan| ==> NoneJoins(plan, Listed(ids, boundary), i, |plan|, raw)
  }

  /** `boundary_two_opt`. */
  method TwoOptPass(vsp: VspSolution, raw: RawParams, boundary: set<int>)
    returns (res: VspSolution, swaps: nat, ghost run: seq<Plan>, ghost ids: seq<int>)
    requires NoEmptyChain(View(vsp.blocks))
    ensures Stitched(old(View(vsp.blocks)), View(res.blocks), raw, HeadsOk(raw))
    ensures res.unassigned == vsp.unassigned && (swaps == 0 ==> res == vsp)
    ensures swaps > 0 ==> Distinct(res.blocks) && fresh(Objs(res.blocks)) && DistinctBlockIds(res.blocks)
    ensures boundary != {} ==>
      PassOver(old(View(vsp.blocks)), old(BlockIds(vsp.blocks)), run, ids, boundary, raw) && |run| == swaps + 1
    ensures boundary != {} && swaps == 0 ==> Settled(run[0], ids, boundary, raw)
    ensures swaps > 0 ==> |run| == swaps + 1 && View(res.blocks) == DropEmpty(run[swaps])
  {
    hide PoolTo, ViewTo, BlockIdsTo, BlockFeasible, PassOver, Stitched, DropEmptyTo, Settled;
    ghost var plan := View(vsp.blocks);
    ghost var oldIds := BlockIds(vsp.blocks);
    SelfStitched(plan, raw);
    run, ids := [plan], oldIds;
    if boundary == {} {
      return vsp, 0, run, ids;
    }
    var copies := CopyBlocks(vsp.blocks);
    assert View(copies) == plan && BlockIds(copies) == oldIds;
    var kept;
    kept, swaps, run, ids := SortAndPass(copies, raw, boundary);
    assert View(vsp.blocks) == plan;
    if swaps == 0 {
      res := vsp;
    } else {
      ghost var final := View(kept);
      Renumber(kept);
      assert View(kept) == final;
      res := VspSolution(kept, vsp.unassigned);
    }
  }

  lemma SelfStitched(plan: Plan, raw: RawParams)
    requires NoEmptyChain(plan)
    ensures Stitched(plan, plan, raw, HeadsOk(raw))
  {
  }

  method SortAndPass(copies: seq<Block>, raw: RawParams, boundary: set<int>)
    returns (kept: seq<Block>, swaps: nat, ghost run: seq<Plan>, ghost ids: seq<int>)
    requires Distinct(copies)
    modifies Objs(copies)`trips
    ensures Distinct(kept) && Objs(kept) <= Objs(copies)
    ensures Stitched(old(View(copies)), View(kept), raw, HeadsOk(raw))
    ensures PassOver(old(View(copies)), old(BlockIds(copies)), run, ids, boundary, raw) && |run| == swaps + 1
    ensures swaps == 0 ==> Settled(run[0], ids, boundary, raw)
    ensures View(kept) == DropEmpty(run[swaps])
  {
    hide PoolTo, ViewTo, BlockIdsTo, BlockFeasible, SortBlocks, HeadsOk, MoveRun;
    ghost var before := View(copies);
    ghost var p := Extract(raw);
    var blocks := SortBlocks(copies, false);
    SortBlocksFacts(copies, false);
    ghost var sorted := View(blocks);
    PoolPermute(before, sorted);
    if PlanFeasible(before, p) { FeasiblePermute(before, sorted, p); }
    assert |sorted| == |multiset(sorted)| && |before| == |multiset(before)|;
    ids := BlockIds(blocks);
    TagsPermute(copies, blocks);
    ghost var listed := Membership(blocks, boundary, |blocks|);
    assert listed == Listed(ids, boundary);
    swaps, run := BoundaryPass(blocks, raw, boundary);
    RunPasses(run, listed, raw, swaps);
    ghost var after := View(blocks);
    kept := WithTrips(blocks);
    WithTripsView(blocks);
    DropEmptyKeeps(after, p);
  }

  /**
   * `stitch_chunk_boundaries` for any set of boundary block ids: trips are conserved and blocks never added. The second
   * phase goes by the ids of the solution `mid` between the phases; `before` are the ids those blocks came with.
   */
  method Stitch(vsp: VspSolution, raw: RawParams, boundary: set<int>, maxTail: int)
    returns (res: VspSolution, ghost mid: VspSolution, ghost before: seq<int>, ghost run: seq<Plan>,
             ghost ids: seq<int>)
    requires NoEmptyChain(View(vsp.blocks))
    ensures Stitched(old(View(vsp.blocks)), View(res.blocks), raw, TailsOk(raw))
    ensures res.unassigned == vsp.unassigned
    ensures View(vsp.blocks) == old(View(vsp.blocks)) && BlockIds(vsp.blocks) == old(BlockIds(vsp.blocks))
    ensures Between(vsp, mid, before, raw, boundary, maxTail)
    ensures |vsp.blocks| >= 2 && boundary != {} ==>
      && PassOver(View(mid.blocks), BlockIds(mid.blocks), run, ids, boundary, raw)
      && (|run| == 1 ==> Settled(run[0], ids, boundary, raw))
    ensures SameTargets(mid, before, boundary) <==>
      mid == vsp || forall i :: 0 <= i < |before| ==> (i + 1 in boundary <==> before[i] in boundary)
  {
    hide PoolTo, ViewTo, BlockIdsTo, BlockFeasible, PassOver, Stuck, GrewFrom, NoneAbsorbs, Survive, Settled;
    hide SortedByStart;
    ghost var plan, oldIds := View(vsp.blocks), BlockIds(vsp.blocks);
    mid, before, run, ids, res := vsp, oldIds, [], [], vsp;
    if |vsp.blocks| < 2 {
      GrewSelf(plan, oldIds);
      SurviveSelf(plan, oldIds, boundary);
      FewStuck(plan, oldIds, boundary, raw, maxTail);
      return;
    }
    StitchedSelf(plan, raw);
    var between, relocations;
    between, relocations, before := TailRelocation(vsp, raw, boundary, maxTail);
    assert View(vsp.blocks) == plan && BlockIds(vsp.blocks) == oldIds;
    mid := between;
    ghost var view, tags := View(mid.blocks), BlockIds(mid.blocks);
    var swaps;
    res, swaps, run, ids := TwoOptPass(between, raw, boundary);
    assert View(vsp.blocks) == plan && BlockIds(vsp.blocks) == oldIds;
    assert View(mid.blocks) == view && BlockIds(mid.blocks) == tags;
    if mid != vsp {
      TargetsMatch(tags, before, boundary);
    }
  }

  /** What is known of the solution between the phases; it is the given one exactly when nothing could be relocated. */
  ghost predicate Between(vsp: VspSolution, mid: VspSolution, before: seq<int>, raw: RawParams, boundary: set<int>,
                          maxTail: int)
    reads Objs(vsp.blocks), Objs(mid.blocks)
  {
    var plan, ids, after := View(vsp.blocks), BlockIds(vsp.blocks), View(mid.blocks);
    && |before| == |after| && Stitched(plan, after, raw, TailsOk(raw))
    && GrewFrom(after, before, plan, ids) && Survive(plan, ids, after, before, boundary)
    && (mid == vsp <==> Stuck(plan, ids, boundary, raw, maxTail))
    && (mid == vsp ==> before == ids)
    && (mid != vsp ==> |after| < |plan| && SortedByStart(after)
                       && forall i :: 0 <= i < |after| ==> BlockIds(mid.blocks)[i] == i + 1)
  }

  /** The second phase lists exactly the blocks that came with a boundary id. */
  ghost predicate SameTargets(mid: VspSolution, before: seq<int>, boundary: set<int>)
    reads Objs(mid.blocks)
  {
    Listed(BlockIds(mid.blocks), boundary) == Listed(before, boundary)
  }

  lemma TargetsMatch(tags: seq<int>, before: seq<int>, boundary: set<int>)
    requires |tags| == |before| && forall i :: 0 <= i < |tags| ==> tags[i] == i + 1
    ensures Listed(tags, boundary) == Listed(before, boundary)
      <==> forall i :: 0 <= i < |before| ==> (i + 1 in boundary <==> before[i] in boundary)
  {
    if Listed(tags, boundary) == Listed(before, boundary) {
      forall i | 0 <= i < |before| ensures i + 1 in boundary <==> before[i] in boundary {
        assert Listed(tags, boundary)[i] == Listed(before, boundary)[i];
      }
    }
  }

  lemma FewStuck(plan: Plan, ids: seq<int>, boundary: set<int>, raw: RawParams, maxTail: int)
    requires |ids| == |plan| < 2
    ensures Stuck(plan, ids, boundary, raw, maxTail)
  {
  }

  // ---- a run that strays ----

  /**
   * Three blocks of which only block 2 is on the boundary. It is appended to block 1, block 3 becomes block 2, and the
   * second phase moves its trip into block 1, although neither of the two was on the boundary.
   */
  method StitchStrays() returns (res: VspSolution, ghost mid: VspSolution, ghost before: seq<int>, ghost run: seq<Plan>)
    ensures View(mid.blocks) == [[Ride(1, 0, 100), Ride(2, 130, 160)], [Ride(3, 200, 250)]] && before == [1, 3]
    ensures |run| > 1 && run[0] == View(mid.blocks)
    ensures run[1] == [[Ride(1, 0, 100), Ride(2, 130, 160), Ride(3, 200, 250)], []]
  {
    hide PoolTo, ViewTo, BlockIdsTo, BlockFeasible, PassOver, Stuck, GrewFrom, Survive, Settled, Stitched;
    hide SortedByStart;
    var one := new Block(1, [Ride(1, 0, 100)]);
    var two := new Block(2, [Ride(2, 130, 160)]);
    var three := new Block(3, [Ride(3, 200, 250)]);
    var vsp := VspSolution([one, two, three], []);
    ghost var plan := [[Ride(1, 0, 100)], [Ride(2, 130, 160)], [Ride(3, 200, 250)]];
    assert View(vsp.blocks) == plan && BlockIds(vsp.blocks) == [1, 2, 3];
    ghost var ids;
    res, mid, before, run, ids := Stitch(vsp, DEFAULTS, {2}, 3);
    FirstFitsSecond(plan);
    StrayMid(plan, View(mid.blocks), before);
    StrayRun(View(mid.blocks), BlockIds(mid.blocks), run, ids);
  }

  lemma FirstFitsSecond(plan: Plan)
    requires plan == [[Ride(1, 0, 100)], [Ride(2, 130, 160)], [Ride(3, 200, 250)]]
    ensures !Stuck(plan, [1, 2, 3], {2}, DEFAULTS, 3)
  {
    assert TailFits(plan[0], plan[1], DEFAULTS);
  }

  /** The contract of the first phase leaves one outcome only. */
  lemma StrayMid(plan: Plan, after: Plan, before: seq<int>)
    requires plan == [[Ride(1, 0, 100)], [Ride(2, 130, 160)], [Ride(3, 200, 250)]]
    requires |before| == |after| < 3 && Stitched(plan, after, DEFAULTS, TailsOk(DEFAULTS)) && SortedByStart(after)
    requires GrewFrom(after, before, plan, [1, 2, 3]) && Survive(plan, [1, 2, 3], after, before, {2})
    ensures after == [[Ride(1, 0, 100), Ride(2, 130, 160)], [Ride(3, 200, 250)]] && before == [1, 3]
  {
    hide PoolTo, BlockFeasible, Stitched, SortedByStart, GrewFrom;
    assert GrownIn(plan, [1, 2, 3], after, before, 0) && GrownIn(plan, [1, 2, 3], after, before, 2);
    var k :| 0 <= k < |after| && Grew(after[k], before[k], plan, [1, 2, 3], 0);
    var l :| 0 <= l < |after| && Grew(after[l], before[l], plan, [1, 2, 3], 2);
    assert after[k][0] == Ride(1, 0, 100) && after[l][0] == Ride(3, 200, 250);
    assert k == 0 && l == 1 && |after| == 2 by {
      assert SortedByStart(after) ==> (l < k ==> ChainStart(after[l]) <= ChainStart(after[k])) by { SortedAt(after); }
    }
    StrayChains(plan, after);
  }

  lemma SortedAt(plan: Plan)
    requires SortedByStart(plan)
    ensures forall i, j :: 0 <= i < j < |plan| ==> ChainStart(plan[i]) <= ChainStart(plan[j])
  {
  }

  lemma StrayChains(plan: Plan, after: Plan)
    requires plan == [[Ride(1, 0, 100)], [Ride(2, 130, 160)], [Ride(3, 200, 250)]]
    requires |after| == 2 && Stitched(plan, after, DEFAULTS, TailsOk(DEFAULTS))
    requires after[0] != [] && after[1] != [] && after[0][0] == Ride(1, 0, 100) && after[1][0] == Ride(3, 200, 250)
    ensures after == [[Ride(1, 0, 100), Ride(2, 130, 160)], [Ride(3, 200, 250)]]
  {
    var (a, b, c) := (Ride(1, 0, 100), Ride(2, 130, 160), Ride(3, 200, 250));
    StrayPool(plan);
    assert !BlockFeasible([c, b], Extract(DEFAULTS)) by {
      assert !EdgeFeasible([c, b][0], [c, b][1], Extract(DEFAULTS).conn);
    }
    assert after == [after[0], after[1]];
    PoolTwo(after[0], after[1]);
    hide PoolTo;
    var onTail := OneLeft(a, b, c, after[0], after[1]);
  }

  /** Two chains with known heads share out one more trip. */
  lemma OneLeft<T>(a: T, b: T, c: T, x: seq<T>, y: seq<T>) returns (onTail: bool)
    requires x != [] && y != [] && x[0] == a && y[0] == c && multiset(x) + multiset(y) == multiset{a, b, c}
    ensures if onTail then x == [a] && y == [c, b] else x == [a, b] && y == [c]
  {
    var u, v := x[1..], y[1..];
    HeadAndRest(x);
    HeadAndRest(y);
    SharedOut(a, b, c, multiset(u), multiset(v));
    onTail := OnlyOne(u, v, b);
    Joined(x, y, u, v, b, onTail);
  }

  lemma Joined<T>(x: seq<T>, y: seq<T>, u: seq<T>, v: seq<T>, b: T, onTail: bool)
    requires x != [] && y != [] && x == [x[0]] + u && y == [y[0]] + v
    requires if onTail then u == [] && v == [b] else u == [b] && v == []
    ensures if onTail then x == [x[0]] && y == [y[0], b] else x == [x[0], b] && y == [y[0]]
  {
  }

  lemma HeadAndRest<T>(s: seq<T>)
    requires s != []
    ensures s == [s[0]] + s[1..] && multiset(s) == multiset{s[0]} + multiset(s[1..])
  {
    assert s == [s[0]] + s[1..];
  }

  lemma OnlyOne<T>(u: seq<T>, v: seq<T>, b: T) returns (second: bool)
    requires multiset(u) + multiset(v) == multiset{b}
    ensures if second then u == [] && v == [b] else u == [b] && v == []
  {
    assert |u| + |v| == |multiset(u) + multiset(v)| == 1;
    second := |v| == 1;
    if second { assert v[0] in multiset(v); } else { assert u[0] in multiset(u); }
  }

  lemma SharedOut<T>(a: T, b: T, c: T, u: multiset<T>, v: multiset<T>)
    requires (multiset{a} + u) + (multiset{c} + v) == multiset{a, b, c}
    ensures u + v == multiset{b}
  {
    assert (multiset{a} + u) + (multiset{c} + v) == (multiset{a} + multiset{c}) + (u + v);
    assert multiset{a, b, c} == (multiset{a} + multiset{c}) + multiset{b};
    TakeTwo(u + v, multiset{b}, multiset{a} + multiset{c});
  }

  lemma TakeTwo<T>(p: multiset<T>, q: multiset<T>, r: multiset<T>)
    requires r + p == r + q
    ensures p == q
  {
    assert p == (r + p) - r && q == (r + q) - r;
  }

  lemma StrayPool(plan: Plan)
    requires plan == [[Ride(1, 0, 100)], [Ride(2, 130, 160)], [Ride(3, 200, 250)]]
    ensures Pool(plan) == multiset{Ride(1, 0, 100), Ride(2, 130, 160), Ride(3, 200, 250)}
    ensures PlanFeasible(plan, Extract(DEFAULTS)) && WellTimedPool(Pool(plan)) && TailsOk(DEFAULTS)
  {
    assert PoolTo(plan, 3) == PoolTo(plan, 2) + multiset(plan[2]);
    assert PoolTo(plan, 2) == PoolTo(plan, 1) + multiset(plan[1]);
    assert PoolTo(plan, 1) == PoolTo(plan, 0) + multiset(plan[0]);
  }

  lemma NotSettled(mid: Plan)
    requires |mid| == 2 && HeadJoins(mid[0], mid[1], DEFAULTS)
    ensures !Settled(mid, [1, 2], {2}, DEFAULTS)
  {
    assert Listed([1, 2], {2})[1];
    assert !NoneJoins(mid, Listed([1, 2], {2}), 0, 2, DEFAULTS);
  }

  /** The second phase must move, and there is one move to make. */
  lemma StrayRun(mid: Plan, tags: seq<int>, run: seq<Plan>, ids: seq<int>)
    requires mid == [[Ride(1, 0, 100), Ride(2, 130, 160)], [Ride(3, 200, 250)]] && tags == [1, 2]
    requires PassOver(mid, tags, run, ids, {2}, DEFAULTS)
    requires |run| == 1 ==> Settled(run[0], ids, {2}, DEFAULTS)
    ensures |run| > 1 && run[0] == mid
    ensures run[1] == [[Ride(1, 0, 100), Ride(2, 130, 160), Ride(3, 200, 250)], []]
  {
    assert run[0] == mid && ids == tags;
    assert HeadJoins(mid[0], mid[1], DEFAULTS);
    NotSettled(mid);
    if |run| > 1 {
      assert Moved(run[0], run[1], Listed(ids, {2}), DEFAULTS);
      assert run[1] == HeadMoved(mid, 0, 1);
      assert mid[0] + [mid[1][0]] == [Ride(1, 0, 100), Ride(2, 130, 160), Ride(3, 200, 250)] && mid[1][1..] == [];
    }
  }
}
