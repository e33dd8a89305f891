// Merging start-adjacent blocks until none fit (`_try_merge_vsp_blocks`).
module Merge {
  import opened Domain
  import opened Kernel
  import opened Plans
  import opened Blocks
  import opened Certificate

  /** The two chains driven one after the other form a feasible block. */
  predicate Mergeable(a: Chain, b: Chain, p: Params) {
    a != [] && b != [] && BlockFeasible(a + b, p)
  }

  /** In start order, no chain can be merged with its successor. */
  ghost predicate NoMergeLeft(plan: Plan, p: Params) {
    forall i :: 0 <= i < |plan| - 1 ==> !Mergeable(plan[i], plan[i + 1], p)
  }

  ghost function MergedAt(plan: Plan, i: nat): Plan
    requires i + 1 < |plan|
  {
    plan[..i] + [plan[i] + plan[i + 1]] + plan[i + 2..]
  }

  lemma MergedAtPool(plan: Plan, i: nat)
    requires i + 1 < |plan|
    ensures Pool(MergedAt(plan, i)) == Pool(plan)
  {
    var joint := plan[i] + plan[i + 1];
    var without: Plan := Without(plan, i + 1);
    assert Pool(MergedAt(plan, i)) == Pool(without) - multiset(plan[i]) + multiset(joint)
        && multiset(plan[i]) <= Pool(without) by {
      PoolUpdate(without, i, joint);
      assert without[i := joint] == MergedAt(plan, i);
    }
    assert Pool(plan) == Pool(without) + multiset(plan[i + 1]) by {
      PoolWithout(plan, i + 1);
    }
    Regroup(Pool(without), multiset(plan[i]), multiset(plan[i + 1]));
  }

  lemma Regroup<T>(pool: multiset<T>, x: multiset<T>, y: multiset<T>)
    requires x <= pool
    ensures pool - x + (x + y) == pool + y
  {
  }

  lemma MergedAtSize(plan: Plan, i: nat)
    requires i + 1 < |plan| && plan[i] != [] && plan[i + 1] != []
    ensures Vehicles(MergedAt(plan, i)) == Vehicles(plan) - 1
  {
    hide Vehicles;
    VehiclesCount(MergedAt(plan, i));
    VehiclesCount(plan);
    var front, back := plan[..i], plan[i + 2..];
    NotEmptyBetween(front, [plan[i], plan[i + 1]], back);
    NotEmptyBetween(front, [plan[i] + plan[i + 1]], back);
    assert plan == front + [plan[i], plan[i + 1]] + back;
  }

  lemma NotEmptyBetween(front: Plan, middle: Plan, back: Plan)
    requires [] !in middle
    ensures multiset(front + middle + back)[[]] == multiset(front)[[]] + multiset(back)[[]]
  {
    assert multiset(front + middle + back) == multiset(front) + multiset(middle) + multiset(back);
  }

  lemma MergedAtFeasible(plan: Plan, i: nat, p: Params)
    requires i + 1 < |plan| && BlockFeasible(plan[i] + plan[i + 1], p)
    ensures PlanFeasible(plan, p) ==> PlanFeasible(MergedAt(plan, i), p)
    ensures NoEmptyChain(plan) ==> NoEmptyChain(MergedAt(plan, i))
  {
    var m := MergedAt(plan, i);
    assert forall k :: 0 <= k < |m| ==>
      m[k] == if k < i then plan[k] else if k == i then plan[i] + plan[i + 1] else plan[k + 1];
  }

  /** Appends the trips of block i + 1 to block i and drops block i + 1. */
  method MergeInto(blocks: seq<Block>, i: nat) returns (r: seq<Block>)
    requires Distinct(blocks) && i + 1 < |blocks|
    modifies {blocks[i]}`trips
    ensures Distinct(r) && Objs(r) <= Objs(blocks) && |r| == |blocks| - 1
    ensures View(r) == MergedAt(old(View(blocks)), i)
  {
    blocks[i].trips := blocks[i].trips + blocks[i + 1].trips;
    r := Without(blocks, i + 1);
  }

  /** How a number of merges may change a plan. */
  ghost predicate Reduced(before: Plan, after: Plan, merges: nat, p: Params) {
    && Pool(after) == Pool(before)
    && Vehicles(after) + merges == Vehicles(before)
    && |after| + merges == |before|
    && (PlanFeasible(before, p) ==> PlanFeasible(after, p))
    && (NoEmptyChain(before) ==> NoEmptyChain(after))
  }

  lemma ReducedStep(before: Plan, now: Plan, merges: nat, i: nat, p: Params)
    requires Reduced(before, now, merges, p)
    requires i + 1 < |now| && Mergeable(now[i], now[i + 1], p)
    ensures Reduced(before, MergedAt(now, i), merges + 1, p)
  {
    MergedAtPool(now, i);
    MergedAtSize(now, i);
    MergedAtFeasible(now, i, p);
  }

  /** None of the first n chains merges with its successor. */
  ghost predicate NoneMergeable(plan: Plan, n: int, p: Params) {
    forall k :: 0 <= k < n && k < |plan| - 1 ==> !Mergeable(plan[k], plan[k + 1], p)
  }

  lemma ReducedNot(plan: Plan, p: Params)
    ensures Reduced(plan, plan, 0, p)
  {
  }

  /** One scan over the start-sorted blocks, merging a block into its predecessor whenever the union is feasible. */
  method MergePass(blocks: seq<Block>, p: Params) returns (r: seq<Block>, merges: nat)
    requires Distinct(blocks)
    modifies Objs(blocks)`trips
    ensures Distinct(r) && Objs(r) <= Objs(blocks)
    ensures Reduced(old(View(blocks)), View(r), merges, p)
    ensures merges == 0 ==> View(r) == old(View(blocks)) && NoMergeLeft(View(r), p)
  {
    hide BlockFeasible, PoolTo, ViewTo, MergedAt, Reduced;
    ReducedNot(View(blocks), p);
    r, merges := blocks, 0;
    var i := 0;
    ghost var before := View(blocks);
    while i < |r| - 1
      invariant 0 <= i && Distinct(r) && Objs(r) <= Objs(blocks)
      invariant Reduced(before, View(r), merges, p)
      invariant merges == 0 ==> View(r) == before
      invariant merges == 0 ==> NoneMergeable(View(r), i, p)
      decreases |r| - i
    {
      if r[i].trips == [] || r[i + 1].trips == [] {
        i := i + 1;
      } else if BlockFeasible(r[i].trips + r[i + 1].trips, p) {
        ReducedStep(before, View(r), merges, i, p);
        r := MergeInto(r, i);
        merges := merges + 1;
      } else {
        i := i + 1;
      }
    }
  }

  /** `_try_merge_vsp_blocks`: sorts and scans until a scan merges nothing; works on copies. */
  method TryMergeBlocks(sol: VspSolution, raw: RawParams) returns (res: VspSolution, merges: nat)
    ensures res == sol || (Distinct(res.blocks) && fresh(Objs(res.blocks)) && res.unassigned == sol.unassigned)
    ensures res != sol ==> DistinctBlockIds(res.blocks)
    ensures merges == 0 && NoEmptyChain(View(sol.blocks)) ==> res == sol
    ensures Pool(View(res.blocks)) == Pool(View(sol.blocks))
    ensures PlanFeasible(View(sol.blocks), Extract(raw)) ==> PlanFeasible(View(res.blocks), Extract(raw))
    ensures NoEmptyChain(View(res.blocks))
    ensures |res.blocks| + merges == Vehicles(View(sol.blocks))
    ensures NoEmptyChain(View(sol.blocks)) ==> NoMergeLeft(SortPlan(View(res.blocks)), Extract(raw))
  {
    hide BlockFeasible, PoolTo, ViewTo, DropEmptyTo, WithTripsTo, NoMergeLeft, SortPlan, Reduced, PlanFeasible;
    ghost var input := View(sol.blocks);
    var blocks := CopyBlocks(sol.blocks);
    blocks, merges := MergeToFixpoint(blocks, Extract(raw));
    ghost var final := View(blocks);
    FinishMerge(input, final, merges, Extract(raw));
    var kept := WithTrips(blocks);
    WithTripsView(blocks);
    if merges > 0 || |kept| < |sol.blocks| {
      Renumber(kept);
      res := VspSolution(kept, sol.unassigned);
      assert View(res.blocks) == DropEmpty(final);
    } else {
      res := sol;
    }
    assert View(sol.blocks) == input;
  }

  /** What dropping the empty chains after the last scan gives. */
  lemma FinishMerge(input: Plan, final: Plan, merges: nat, p: Params)
    requires Reduced(input, final, merges, p)
    requires merges == 0 ==> SortPlan(final) == SortPlan(input)
    requires NoMergeLeft(final, p) && SortPlan(final) == final
    ensures var kept := DropEmpty(final);
      && NoEmptyChain(kept) && Pool(kept) == Pool(input)
      && |kept| + merges == Vehicles(input)
      && (PlanFeasible(input, p) ==> PlanFeasible(kept, p))
      && (NoEmptyChain(input) ==> NoMergeLeft(SortPlan(kept), p))
      && (merges == 0 && NoEmptyChain(input) ==> |kept| == |input| && NoMergeLeft(SortPlan(input), p))
      && (merges == 0 && |kept| >= |input| ==> NoEmptyChain(input))
  {
    DropEmptyKeeps(final, p);
    VehiclesCount(input);
    if merges == 0 && Vehicles(input) >= |input| {
      forall i | 0 <= i < |input| ensures input[i] != [] {
        assert input[i] in multiset(input);
      }
    }
  }

  method MergeToFixpoint(copies: seq<Block>, p: Params) returns (blocks: seq<Block>, merges: nat)
    requires Distinct(copies)
    modifies Objs(copies)`trips
    ensures Distinct(blocks) && Objs(blocks) <= Objs(copies)
    ensures Reduced(old(View(copies)), View(blocks), merges, p)
    ensures merges == 0 ==> SortPlan(View(blocks)) == SortPlan(old(View(copies)))
    ensures NoMergeLeft(View(blocks), p) && SortPlan(View(blocks)) == View(blocks)
  {
    ghost var input := View(copies);
    blocks := copies;
    var changed := true;
    merges := 0;
    while changed
      invariant Distinct(blocks) && Objs(blocks) <= Objs(copies)
      invariant Reduced(input, View(blocks), merges, p)
      invariant merges == 0 ==> SortPlan(View(blocks)) == SortPlan(input)
      invariant !changed ==> NoMergeLeft(View(blocks), p) && SortPlan(View(blocks)) == View(blocks)
      decreases Vehicles(input) - merges, changed
    {
      var count;
      ghost var now := View(blocks);
      blocks, count := SortAndScan(blocks, p);
      ReducedTwice(input, now, View(blocks), merges, count, p);
      merges := merges + count;
      changed := count > 0;
    }
  }

  lemma ReducedTwice(a: Plan, b: Plan, c: Plan, m: nat, n: nat, p: Params)
    requires Reduced(a, b, m, p) && Reduced(b, c, n, p)
    ensures Reduced(a, c, m + n, p)
  {
  }

  /** One round of the outer loop. */
  method SortAndScan(blocks: seq<Block>, p: Params) returns (r: seq<Block>, merges: nat)
    requires Distinct(blocks)
    modifies Objs(blocks)`trips
    ensures Distinct(r) && Objs(r) <= Objs(blocks)
    ensures Reduced(old(View(blocks)), View(r), merges, p)
    ensures merges == 0 ==> View(r) == SortPlan(old(View(blocks)))
    ensures merges == 0 ==> SortPlan(View(r)) == View(r) && NoMergeLeft(View(r), p)
  {
    ghost var before := View(blocks);
    var sorted := SortBlocks(blocks, false);
    ghost var after := View(sorted);
    SortBlocksFacts(blocks, false);
    SortBlocksView(blocks);
    SortPlanIdempotent(before);
    ReducedByReorder(before, after, p);
    r, merges := MergePass(sorted, p);
    ReducedTwice(before, after, View(r), 0, merges, p);
  }

  lemma ReducedByReorder(a: Plan, b: Plan, p: Params)
    requires multiset(a) == multiset(b)
    ensures Reduced(a, b, 0, p)
  {
    assert |a| == |multiset(a)| && |b| == |multiset(b)|;
    PoolPermute(a, b);
    VehiclesPermute(a, b);
    forall i | 0 <= i < |b| ensures b[i] in a {
      assert b[i] in multiset(a);
    }
  }

  // ---- merging and the certificate ----

  ghost function JoinedAt(plan: Plan, i: nat, j: nat): Plan
    requires i < |plan| && j < |plan| && i != j
  {
    Without(plan[i := plan[i] + plan[j]], j)
  }

  lemma JoinedPool(plan: Plan, i: nat, j: nat)
    requires i < |plan| && j < |plan| && i != j
    ensures Pool(JoinedAt(plan, i, j)) == Pool(plan)
  {
    hide PoolTo, Without;
    var joint := plan[i] + plan[j];
    PoolUpdate(plan, i, joint);
    PoolWithout(plan[i := joint], j);
    Regroup(Pool(plan), multiset(plan[i]), multiset(plan[j]));
    Cancel(Pool(JoinedAt(plan, i, j)), Pool(plan), multiset(plan[j]));
  }

  lemma Cancel<T>(a: multiset<T>, b: multiset<T>, x: multiset<T>)
    requires a + x == b + x
    ensures a == b
  {
    forall t ensures a[t] == b[t] {
      assert (a + x)[t] == (b + x)[t];
    }
  }

  /** In a certified plan no two blocks, adjacent or not, can be driven one after the other. */
  lemma CertifiedHasNoMerge(plan: Plan, c: Certificate, p: Params, i: nat, j: nat)
    requires Certified(plan, c, p) && PlanFeasible(plan, p)
    requires i < |plan| && j < |plan| && i != j
    ensures !Mergeable(plan[i], plan[j], p)
  {
    if Mergeable(plan[i], plan[j], p) {
      JoinedPool(plan, i, j);
      CertifiedIsMinimal(plan, JoinedAt(plan, i, j), c, p);
      assert false;
    }
  }

  /** Whatever keeps the trips and feasibility of a certified plan cannot save a vehicle; merging it merges nothing. */
  lemma CertifiedMergesNothing(plan: Plan, after: Plan, merges: nat, c: Certificate, p: Params)
    requires Certified(plan, c, p)
    requires Pool(after) == Pool(plan) && PlanFeasible(after, p) && |after| + merges == Vehicles(plan)
    ensures merges == 0 && |after| == |plan|
  {
    CertifiedIsMinimal(plan, after, c, p);
    VehiclesCount(plan);
  }

  /** `_try_merge_vsp_blocks` on a certified solution: nothing is merged and the solution itself comes back. */
  method MergeCertified(sol: VspSolution, raw: RawParams, ghost c: Certificate) returns (res: VspSolution)
    requires Certified(View(sol.blocks), c, Extract(raw))
    requires PlanFeasible(View(sol.blocks), Extract(raw)) && NoEmptyChain(View(sol.blocks))
    ensures res == sol
  {
    hide PlanFeasible, Certified, NoMergeLeft;
    ghost var plan := View(sol.blocks);
    var merges;
    res, merges := TryMergeBlocks(sol, raw);
    assert View(sol.blocks) == plan;
    CertifiedMergesNothing(plan, View(res.blocks), merges, c, Extract(raw));
  }
}
