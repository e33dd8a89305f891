// Candidates that split the blocks behind crew problems (`_csp_feedback_candidates`).
module Feedback {
  import opened Wrappers
  import opened Domain
  import opened Kernel
  import opened Plans
  import opened Blocks
  import opened Moves
  import opened Candidates
  import opened Splitting
  import opened Renaming

  /** The solution cuts some of the plan's blocks at their best cut, and changes nothing else. */
  ghost predicate IsSplit(sol: VspSolution, plan: Plan)
    reads Objs(sol.blocks)`trips
  {
    exists cuts :: CutsOf(plan, cuts) && (exists k :: 0 <= k < |cuts| && cuts[k] > 0) &&
      CutInto(View(sol.blocks), plan, cuts)
  }

  ghost predicate CutInto(after: Plan, plan: Plan, cuts: seq<nat>) {
    CutsFit(plan, cuts) && |cuts| == |plan| && multiset(after) == multiset(CutAll(plan, cuts, |plan|))
  }

  ghost predicate AllSolutionsHold(sols: seq<VspSolution>, plan: Plan, unassigned: seq<Trip>, p: Params)
    reads SolutionParts(sols)`trips
  {
    forall s :: s in sols ==> Holds(s, plan, p) && IsSplit(s, plan) && s.unassigned == unassigned
  }

  ghost function SolutionParts(sols: seq<VspSolution>): set<Block> {
    set s, b | s in sols && b in s.blocks :: b
  }

  function LargestId(bs: seq<Block>, n: nat): int
    requires n <= |bs|
    reads Objs(bs)
  {
    if n == 0 then 0 else if n == 1 then bs[0].id else Max(LargestId(bs, n - 1), bs[n - 1].id)
  }

  lemma HitIsCut(bs: seq<Block>, target: int, cuts: seq<nat>)
    requires CutsFor(bs, target, cuts) && |cuts| == |bs|
    ensures (exists k :: 0 <= k < |cuts| && cuts[k] > 0) <==> AnyHit(bs, target)
  {
    if k :| 0 <= k < |cuts| && cuts[k] > 0 {
      assert bs[k] in bs && Hit(bs[k], target);
    }
    if b :| b in bs && Hit(b, target) {
      var k :| 0 <= k < |bs| && bs[k] == b;
      assert BestCut(bs[k].trips, cuts[k]);
    }
  }

  /** Blocks of at least four trips under the target id are cut, and only these. */
  ghost predicate CutsNamed(plan: Plan, ids: seq<int>, target: int, cuts: seq<nat>) {
    && |cuts| == |plan| == |ids|
    && forall k :: 0 <= k < |cuts| ==>
         if ids[k] == target && |plan[k]| >= 4 then BestCut(plan[k], cuts[k]) else cuts[k] == 0
  }

  ghost predicate Cuts(cuts: seq<nat>) {
    exists k :: 0 <= k < |cuts| && cuts[k] > 0
  }

  /** One target: without a cut the ids stay; a single cut in (start, id) order renames the blocks behind it. */
  ghost predicate Renamed(plan: Plan, ids: seq<int>, target: int, cuts: seq<nat>, firstId: int, next: seq<int>) {
    && CutsNamed(plan, ids, target, cuts) && CutsOf(plan, cuts) && |next| == |ids|
    && (!Cuts(cuts) ==> next == ids)
    && forall at :: SoleCut(cuts, at) && StartOrder(plan, ids) ==> next == NewIds(plan, ids, cuts, at, firstId)
  }

  lemma CutsAreNamed(bs: seq<Block>, target: int, cuts: seq<nat>)
    requires CutsFor(bs, target, cuts) && |cuts| == |bs|
    ensures CutsNamed(View(bs), BlockIds(bs), target, cuts) && CutsOf(View(bs), cuts)
    ensures Cuts(cuts) <==> AnyHit(bs, target)
  {
    hide ViewTo, BlockIdsTo;
    HitIsCut(bs, target, cuts);
  }

  lemma SoleIsHit(bs: seq<Block>, target: int, cuts: seq<nat>, at: nat)
    requires CutsFor(bs, target, cuts) && |cuts| == |bs| && SoleCut(cuts, at)
    ensures at < |bs| && Hit(bs[at], target)
    ensures forall k :: SoleCut(cuts, k) ==> k == at
  {
  }

  lemma NamesAfter(bs: seq<Block>, ordered: seq<Block>, ids: seq<int>, at: nat)
    requires PlacedBy(bs, ordered, ids, at) && at < |bs| && bs[at].id == ids[at]
    requires forall i :: 0 <= i < |ordered| ==> ordered[i].id == i + 1
    ensures BlockIds(bs) == ids
  {
  }

  /** One feedback candidate; renumbering reaches the ids of shared blocks, never their trips. */
  method FeedbackCandidate(sol: VspSolution, target: int, firstId: int, ghost p: Params)
    returns (cand: Option<VspSolution>, ghost cuts: seq<nat>)
    requires Distinct(sol.blocks) && Proper(View(sol.blocks), p)
    modifies Objs(sol.blocks)`id
    ensures View(sol.blocks) == old(View(sol.blocks))
    ensures cand.Some? <==> old(AnyHit(sol.blocks, target))
    ensures cand.Some? <==> Cuts(cuts)
    ensures Renamed(View(sol.blocks), old(BlockIds(sol.blocks)), target, cuts, firstId, BlockIds(sol.blocks))
    ensures cand.Some? ==>
      && Holds(cand.value, View(sol.blocks), p) && cand.value.unassigned == sol.unassigned
      && CutInto(View(cand.value.blocks), View(sol.blocks), cuts)
      && |cand.value.blocks| == |sol.blocks| + CutCount(cuts, |cuts|)
      && fresh(Objs(cand.value.blocks) - Objs(sol.blocks))
    ensures cand.None? ==> forall b :: b in sol.blocks ==> b.id == old(b.id)
    ensures cand.Some? ==> forall b :: b in sol.blocks ==>
      if old(Hit(b, target)) then b.id == old(b.id) && b !in cand.value.blocks
      else b in cand.value.blocks
    ensures cand.Some? ==> forall i :: 0 <= i < |cand.value.blocks| ==> cand.value.blocks[i].id == i + 1
  {
    hide BlockFeasible, PoolTo, ViewTo, HalvesAt, BestCut, DropEmptyTo, Ordered, HalfIds, KeepPlaces;
    hide BlockIds, BlockIdsTo, StartOrder, SoleCut, NewIds, PlacedBy, CutCount;
    ghost var plan, ids := View(sol.blocks), BlockIds(sol.blocks);
    var blocks, done;
    blocks, done, cuts := SplitTarget(sol, target, firstId);
    assert View(sol.blocks) == plan;
    ghost var after := CutAll(plan, cuts, |cuts|);
    CutAllOk(plan, cuts, |cuts|, p);
    DropEmptyKeeps(after, p);
    CutsAreNamed(sol.blocks, target, cuts);
    assert BlockIds(sol.blocks) == ids;
    ghost var at: nat :| (exists k :: SoleCut(cuts, k)) ==> SoleCut(cuts, at);
    ghost var named := SoleCut(cuts, at) && StartOrder(plan, ids);
    if named {
      SoleIsHit(sol.blocks, target, cuts, at);
      PlacesAfter(sol.blocks, blocks, cuts, at, firstId, p);
      assert sol.blocks[at] !in blocks && sol.blocks[at].id == ids[at];
    }
    if done {
      var refined := Finish(blocks, sol.unassigned, plan, p);
      cand := Some(refined);
      if named { NamesAfter(sol.blocks, refined.blocks, NewIds(plan, ids, cuts, at, firstId), at); }
    } else {
      cand := None;
    }
    assert View(sol.blocks) == plan;
  }

  // ---- the whole round ----

  /** The ids of the seed's blocks before and after each target, and the cuts made for it. */
  datatype Log = Log(firstId: int, names: seq<seq<int>>, cuts: seq<seq<nat>>)

  ghost predicate Logged(plan: Plan, targets: seq<int>, n: nat, log: Log) {
    && n <= |targets| && |log.names| == n + 1 && |log.cuts| == n
    && forall j :: 0 <= j < n ==>
         Renamed(plan, log.names[j], targets[j], log.cuts[j], log.firstId, log.names[j + 1])
  }

  /** The targets that cut something, in order. */
  ghost function Cutting(cuts: seq<seq<nat>>, n: nat): seq<seq<nat>>
    requires n <= |cuts|
  {
    if n == 0 then [] else Cutting(cuts, n - 1) + if Cuts(cuts[n - 1]) then [cuts[n - 1]] else []
  }

  /** One candidate for each target that cuts something, with exactly its cuts. */
  ghost predicate MadeBy(sols: seq<VspSolution>, plan: Plan, made: seq<seq<nat>>)
    reads SolutionParts(sols)`trips
  {
    |sols| == |made| && forall i :: 0 <= i < |sols| ==> CutInto(View(sols[i].blocks), plan, made[i])
  }

  lemma {:induction false} CuttingAgree(a: seq<seq<nat>>, b: seq<seq<nat>>, n: nat)
    requires n <= |a| && n <= |b| && forall k :: 0 <= k < n ==> a[k] == b[k]
    ensures Cutting(a, n) == Cutting(b, n)
  {
    if n > 0 { CuttingAgree(a, b, n - 1); }
  }

  /** `_csp_feedback_candidates` for the ids of the blocks behind problem duties, in any order. */
  method FeedbackCandidates(sol: VspSolution, targets: seq<int>, raw: RawParams)
    returns (cands: seq<VspSolution>, ghost log: Log)
    requires Distinct(sol.blocks) && Proper(View(sol.blocks), Extract(raw))
    modifies Objs(sol.blocks)`id
    ensures AllSolutionsHold(cands, old(View(sol.blocks)), sol.unassigned, Extract(raw))
    ensures View(sol.blocks) == old(View(sol.blocks))
    ensures forall b :: b in SolutionParts(cands) ==> b in Objs(sol.blocks) || fresh(b)
    ensures cands != [] <==> old(exists k :: 0 <= k < |targets| && AnyHit(sol.blocks, targets[k]))
    ensures Logged(old(View(sol.blocks)), targets, |targets|, log) && log.names[0] == old(BlockIds(sol.blocks))
    ensures BlockIds(sol.blocks) == log.names[|targets|]
    ensures log.firstId == old(LargestId(sol.blocks, |sol.blocks|)) + 1
    ensures MadeBy(cands, old(View(sol.blocks)), Cutting(log.cuts, |targets|))
  {
    hide BlockFeasible, PoolTo, ViewTo, BlockIdsTo, Holds, Proper, AllSolutionsHold, SolutionParts, MadeBy, Renamed;
    hide Cuts, AnyHit;
    NoSolutions(View(sol.blocks), sol.unassigned, Extract(raw));
    ghost var p := Extract(raw);
    ghost var plan := View(sol.blocks);
    var firstId := LargestId(sol.blocks, |sol.blocks|) + 1;
    cands, log := [], Log(firstId, [BlockIds(sol.blocks)], []);
    for k := 0 to |targets|
      invariant View(sol.blocks) == plan
      invariant AllSolutionsHold(cands, plan, sol.unassigned, p)
      invariant forall b :: b in SolutionParts(cands) ==> b in Objs(sol.blocks) || fresh(b)
      invariant cands == [] ==> forall b :: b in sol.blocks ==> b.id == old(b.id) && b.trips == old(b.trips)
      invariant cands == [] <==> forall l :: 0 <= l < k ==> !old(AnyHit(sol.blocks, targets[l]))
      invariant Logged(plan, targets, k, log) && log.names[0] == old(BlockIds(sol.blocks)) && log.firstId == firstId
      invariant BlockIds(sol.blocks) == log.names[k]
      invariant MadeBy(cands, plan, Cutting(log.cuts, k))
    {
      assert cands == [] ==> AnyHit(sol.blocks, targets[k]) == old(AnyHit(sol.blocks, targets[k]));
      ghost var cuts;
      ghost var more := log.cuts;
      cands, cuts := AddFeedback(sol, targets[k], firstId, cands, plan, Cutting(log.cuts, k), p);
      log := Log(firstId, log.names + [BlockIds(sol.blocks)], log.cuts + [cuts]);
      CuttingAgree(log.cuts, more, k);
    }
  }

  lemma NoSolutions(plan: Plan, unassigned: seq<Trip>, p: Params)
    ensures AllSolutionsHold([], plan, unassigned, p) && SolutionParts([]) == {} && MadeBy([], plan, [])
  {
  }

  lemma SplitFrom(sol: VspSolution, plan: Plan, ids: seq<int>, target: int, cuts: seq<nat>, firstId: int,
                  next: seq<int>)
    requires Renamed(plan, ids, target, cuts, firstId, next) && Cuts(cuts) && CutInto(View(sol.blocks), plan, cuts)
    ensures IsSplit(sol, plan)
  {
  }

  method AddFeedback(sol: VspSolution, target: int, firstId: int, cands: seq<VspSolution>, ghost plan: Plan,
                     ghost made: seq<seq<nat>>, ghost p: Params)
    returns (more: seq<VspSolution>, ghost cuts: seq<nat>)
    requires Distinct(sol.blocks) && Proper(View(sol.blocks), p) && View(sol.blocks) == plan
    requires AllSolutionsHold(cands, plan, sol.unassigned, p) && MadeBy(cands, plan, made)
    modifies Objs(sol.blocks)`id
    ensures View(sol.blocks) == plan
    ensures AllSolutionsHold(more, plan, sol.unassigned, p)
    ensures forall b :: b in SolutionParts(more) ==> b in SolutionParts(cands) || b in Objs(sol.blocks) || fresh(b)
    ensures cands <= more && (|more| > |cands| <==> old(AnyHit(sol.blocks, target)))
    ensures |more| == |cands| ==> forall b :: b in sol.blocks ==> b.id == old(b.id)
    ensures Renamed(plan, old(BlockIds(sol.blocks)), target, cuts, firstId, BlockIds(sol.blocks))
    ensures MadeBy(more, plan, made + if Cuts(cuts) then [cuts] else [])
  {
    hide BlockFeasible, PoolTo, ViewTo, BlockIdsTo, Holds, Proper, CutInto, BestCut, Renamed, CutCount, IsSplit, Cuts;
    hide AnyHit, Hit;
    var cand;
    cand, cuts := FeedbackCandidate(sol, target, firstId, p);
    forall s | s in cands
      ensures Holds(s, plan, p) && IsSplit(s, plan) && View(s.blocks) == old(View(s.blocks))
    {
      assert old(Holds(s, plan, p)) && old(IsSplit(s, plan));
      assert forall b | b in Objs(s.blocks) :: old(allocated(b));
    }
    if cand.Some? {
      SplitFrom(cand.value, plan, old(BlockIds(sol.blocks)), target, cuts, firstId, BlockIds(sol.blocks));
      more := cands + [cand.value];
    } else {
      more := cands;
    }
  }
}
