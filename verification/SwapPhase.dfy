// Moving first trips of later blocks to the end of earlier ones, in up to five passes.
module SwapPhase {
  import opened Domain
  import opened Kernel
  import opened Plans
  import opened Blocks
  import opened Moves

  /** What the passes keep; chains may become empty on the way. */
  ghost predicate Kept(before: Plan, after: Plan, p: Params) {
    Pool(after) == Pool(before) && PlanFeasible(after, p) && |after| == |before|
  }

  lemma KeptStep(before: Plan, now: Plan, i: nat, j: nat, p: Params)
    requires Kept(before, now, p) && WellTimedPool(Pool(before))
    requires i < |now| && j < |now| && i != j && now[j] != []
    requires BlockFeasible(now[i] + [now[j][0]], p)
    ensures Kept(before, HeadMoved(now, i, j), p)
  {
    HeadMovedPool(now, i, j);
    HeadMovedFeasible(now, i, j, p);
  }

  method MoveHead(blocks: seq<Block>, i: nat, j: nat)
    requires Distinct(blocks) && i < |blocks| && j < |blocks| && i != j && blocks[j].trips != []
    modifies Objs(blocks)`trips
    ensures View(blocks) == HeadMoved(old(View(blocks)), i, j)
  {
    blocks[i].trips := blocks[i].trips + [blocks[j].trips[0]];
    blocks[j].trips := blocks[j].trips[1..];
  }

  /** May the first trip of chain b join the end of chain a? */
  predicate HeadFits(a: Chain, b: Chain, p: Params, maxUnpaidBreak: int) {
    a != [] && b != [] && BlockFeasible(a + [b[0]], p) && GapBetween(a[|a| - 1], b[0]) <= maxUnpaidBreak
  }

  /** One swap: the first trip of a later block joins the end of an earlier one that it fits. */
  ghost predicate Swapped(a: Plan, b: Plan, p: Params, maxUnpaidBreak: int) {
    exists i, j :: 0 <= i < j < |a| && HeadFits(a[i], a[j], p, maxUnpaidBreak) && b == HeadMoved(a, i, j)
  }

  /** The plans a pass goes through, one swap at a time. */
  ghost predicate SwapRun(run: seq<Plan>, p: Params, maxUnpaidBreak: int) {
    |run| > 0 && forall k :: 0 <= k < |run| - 1 ==> Swapped(run[k], run[k + 1], p, maxUnpaidBreak)
  }

  /** Any number of swaps keeps the trips, feasibility and the list length. */
  lemma {:induction false} RunKeeps(run: seq<Plan>, p: Params, maxUnpaidBreak: int, n: nat)
    requires SwapRun(run, p, maxUnpaidBreak) && n < |run|
    requires PlanFeasible(run[0], p) && WellTimedPool(Pool(run[0]))
    ensures Kept(run[0], run[n], p)
  {
    hide BlockFeasible, PoolTo;
    if n > 0 {
      RunKeeps(run, p, maxUnpaidBreak, n - 1);
      assert Swapped(run[n - 1], run[n], p, maxUnpaidBreak);
      var i, j :| 0 <= i < j < |run[n - 1]| && HeadFits(run[n - 1][i], run[n - 1][j], p, maxUnpaidBreak)
        && run[n] == HeadMoved(run[n - 1], i, j);
      KeptStep(run[0], run[n - 1], i, j, p);
    }
  }

  lemma RunMore(run: seq<Plan>, i: nat, j: nat, p: Params, maxUnpaidBreak: int)
    requires SwapRun(run, p, maxUnpaidBreak) && i < j < |run[|run| - 1]|
    requires HeadFits(run[|run| - 1][i], run[|run| - 1][j], p, maxUnpaidBreak)
    ensures SwapRun(run + [HeadMoved(run[|run| - 1], i, j)], p, maxUnpaidBreak)
  {
    hide BlockFeasible;
    var more := run + [HeadMoved(run[|run| - 1], i, j)];
    assert Swapped(more[|run| - 1], more[|run|], p, maxUnpaidBreak);
    forall k | 0 <= k < |more| - 1 ensures Swapped(more[k], more[k + 1], p, maxUnpaidBreak) {
      if k < |run| - 1 {
        assert Swapped(run[k], run[k + 1], p, maxUnpaidBreak);
      }
    }
  }

  /** One pass over all pairs of blocks; a pass without a swap has found no head that fits. */
  method SwapPass(blocks: seq<Block>, p: Params, maxUnpaidBreak: int) returns (swaps: nat, ghost run: seq<Plan>)
    requires Distinct(blocks)
    modifies Objs(blocks)`trips
    ensures SwapRun(run, p, maxUnpaidBreak) && |run| == swaps + 1
    ensures run[0] == old(View(blocks)) && run[swaps] == View(blocks)
    ensures swaps == 0 ==> NothingFits(View(blocks), p, maxUnpaidBreak)
  {
    hide BlockFeasible, ViewTo, PoolTo, Swapped, SwapRun, HeadMoved;
    ghost var start := View(blocks);
    swaps, run := 0, [start];
    RunStart(start, p, maxUnpaidBreak);
    for i := 0 to |blocks|
      invariant SwapRun(run, p, maxUnpaidBreak) && |run| == swaps + 1
      invariant run[0] == start && run[swaps] == View(blocks)
      invariant swaps == 0 ==> forall a, b :: 0 <= a < i && a < b < |blocks| ==>
        !HeadFits(start[a], start[b], p, maxUnpaidBreak)
    {
      for j := i + 1 to |blocks|
        invariant SwapRun(run, p, maxUnpaidBreak) && |run| == swaps + 1
        invariant run[0] == start && run[swaps] == View(blocks)
        invariant swaps == 0 ==> forall a, b :: 0 <= a < i && a < b < |blocks| ==>
          !HeadFits(start[a], start[b], p, maxUnpaidBreak)
        invariant swaps == 0 ==> forall b :: i < b < j ==> !HeadFits(start[i], start[b], p, maxUnpaidBreak)
      {
        if HeadFits(blocks[i].trips, blocks[j].trips, p, maxUnpaidBreak) {
          RunMore(run, i, j, p, maxUnpaidBreak);
          run := run + [HeadMoved(View(blocks), i, j)];
          MoveHead(blocks, i, j);
          swaps := swaps + 1;
        }
      }
    }
  }

  lemma RunStart(plan: Plan, p: Params, maxUnpaidBreak: int)
    ensures SwapRun([plan], p, maxUnpaidBreak)
  {
  }

  /** No first trip of a later chain fits the end of an earlier one. */
  ghost predicate NothingFits(plan: Plan, p: Params, maxUnpaidBreak: int) {
    forall i, j :: 0 <= i < j < |plan| ==> !HeadFits(plan[i], plan[j], p, maxUnpaidBreak)
  }

  /** Up to five passes: trips and feasibility are kept, no block is added, and stopping early means nothing fits. */
  method SwapPasses(copies: seq<Block>, p: Params, maxUnpaidBreak: int)
    returns (blocks: seq<Block>, swaps: nat, ghost passes: nat)
    requires Distinct(copies) && PlanFeasible(View(copies), p) && WellTimedPool(Pool(View(copies)))
    modifies Objs(copies)
    ensures Distinct(blocks) && Objs(blocks) <= Objs(copies) && |blocks| <= |copies|
    ensures Pool(View(blocks)) == Pool(old(View(copies))) && PlanFeasible(View(blocks), p)
    ensures swaps == 0 ==> View(copies) == old(View(copies))
    ensures 1 <= passes <= 5 && (passes < 5 ==> NothingFits(View(blocks), p, maxUnpaidBreak))
  {
    hide BlockFeasible, ViewTo, PoolTo, NothingFits;
    ghost var input := View(copies);
    blocks, swaps := copies, 0;
    var pass, quiet := 0, false;
    while pass < 5 && !quiet
      invariant pass <= 5 && Distinct(blocks) && Objs(blocks) <= Objs(copies) && |blocks| <= |copies|
      invariant Pool(View(blocks)) == Pool(input) && PlanFeasible(View(blocks), p)
      invariant swaps == 0 ==> blocks == copies && View(copies) == input
      invariant quiet ==> pass > 0 && NothingFits(View(blocks), p, maxUnpaidBreak)
      decreases 5 - pass, !quiet
    {
      var moved;
      blocks, moved := OnePass(blocks, p, maxUnpaidBreak);
      swaps := swaps + moved;
      quiet := moved == 0;
      pass := pass + 1;
    }
    passes := pass;
  }

  method OnePass(blocks: seq<Block>, p: Params, maxUnpaidBreak: int) returns (r: seq<Block>, moved: nat)
    requires Distinct(blocks) && PlanFeasible(View(blocks), p) && WellTimedPool(Pool(View(blocks)))
    modifies Objs(blocks)
    ensures Distinct(r) && Objs(r) <= Objs(blocks) && |r| <= |blocks|
    ensures Pool(View(r)) == Pool(old(View(blocks))) && PlanFeasible(View(r), p)
    ensures moved == 0 ==> r == blocks && View(blocks) == old(View(blocks)) && NothingFits(View(r), p, maxUnpaidBreak)
    ensures moved > 0 ==> NoEmptyChain(View(r))
  {
    hide BlockFeasible, ViewTo, PoolTo, SwapRun;
    ghost var run;
    moved, run := SwapPass(blocks, p, maxUnpaidBreak);
    RunKeeps(run, p, maxUnpaidBreak, moved);
    r := blocks;
    if moved > 0 {
      ghost var after := View(blocks);
      r := WithTrips(blocks);
      WithTripsView(blocks);
      DropEmptyKeeps(after, p);
      Renumber(r);
    }
  }
}
