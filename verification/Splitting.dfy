// Cutting blocks at their best gap, and the block list with the halves in place.
module Splitting {
  import opened Domain
  import opened Kernel
  import opened Plans
  import opened Blocks
  import opened Moves
  import opened Candidates

  /** The gap just before position `cut`. */
  function CutGap(c: Chain, cut: nat): int
    requires 0 < cut < |c|
  {
    GapBetween(c[cut - 1], c[cut])
  }

  /** The cut before the first largest non-negative inner gap, two trips kept on each side; without one, the middle. */
  ghost predicate BestCut(c: Chain, mid: nat)
    requires |c| >= 4
  {
    && 2 <= mid <= |c| - 2
    && (forall cut :: 2 <= cut <= |c| - 2 && CutGap(c, cut) > -1 ==> CutGap(c, cut) <= CutGap(c, mid))
    && (forall cut :: 2 <= cut < mid && CutGap(c, mid) > -1 ==> CutGap(c, cut) < CutGap(c, mid))
    && (CutGap(c, mid) <= -1 ==> mid == |c| / 2)
  }

  method SplitPoint(c: Chain) returns (mid: nat)
    requires |c| >= 4
    ensures BestCut(c, mid)
  {
    var maxGap, splitIndex := -1, -1;
    for i := 1 to |c| - 2
      invariant splitIndex == -1 ==> maxGap == -1
      invariant splitIndex != -1 ==> 2 <= splitIndex <= i && maxGap == CutGap(c, splitIndex) > -1
      invariant forall cut :: 2 <= cut <= i ==> CutGap(c, cut) <= maxGap
      invariant forall cut :: 2 <= cut < splitIndex ==> CutGap(c, cut) < maxGap
    {
      var gap := GapBetween(c[i], c[i + 1]);
      if gap > maxGap {
        maxGap, splitIndex := gap, i + 1;
      }
    }
    mid := if splitIndex > 0 then splitIndex else |c| / 2;
  }

  /** There is exactly one best cut. */
  lemma BestCutUnique(c: Chain, a: nat, b: nat)
    requires |c| >= 4 && BestCut(c, a) && BestCut(c, b)
    ensures a == b
  {
  }

  // ---- splitting blocks ----

  predicate Hit(b: Block, target: int)
    reads b
  {
    b.id == target && |b.trips| >= 4
  }

  ghost predicate AnyHit(bs: seq<Block>, target: int)
    reads Objs(bs)
  {
    exists b :: b in bs && Hit(b, target)
  }

  /** Where each block is cut; 0 leaves it whole. */
  ghost predicate CutsFor(bs: seq<Block>, target: int, cuts: seq<nat>)
    reads Objs(bs)
  {
    && |cuts| <= |bs|
    && forall k :: 0 <= k < |cuts| ==> if Hit(bs[k], target) then BestCut(bs[k].trips, cuts[k]) else cuts[k] == 0
  }

  ghost predicate CutsOf(plan: Plan, cuts: seq<nat>) {
    |cuts| == |plan| && forall k :: 0 <= k < |cuts| ==> cuts[k] == 0 || (|plan[k]| >= 4 && BestCut(plan[k], cuts[k]))
  }

  ghost function HalvesAt(c: Chain, cut: nat): Plan
    requires cut <= |c|
  {
    if cut == 0 then [c] else [c[..cut], c[cut..]]
  }

  ghost predicate CutsFit(plan: Plan, cuts: seq<nat>) {
    |cuts| <= |plan| && forall k :: 0 <= k < |cuts| ==> cuts[k] == 0 || cuts[k] < |plan[k]|
  }

  ghost function CutAll(plan: Plan, cuts: seq<nat>, n: nat): Plan
    requires CutsFit(plan, cuts) && n <= |cuts|
  {
    if n == 0 then [] else CutAll(plan, cuts, n - 1) + HalvesAt(plan[n - 1], cuts[n - 1])
  }

  lemma {:induction false} CutAllAgree(plan: Plan, a: seq<nat>, b: seq<nat>, n: nat)
    requires CutsFit(plan, a) && CutsFit(plan, b) && n <= |a| && n <= |b|
    requires forall k :: 0 <= k < n ==> a[k] == b[k]
    ensures CutAll(plan, a, n) == CutAll(plan, b, n)
  {
    if n > 0 { CutAllAgree(plan, a, b, n - 1); }
  }

  lemma CutAllOn(plan: Plan, cuts: seq<nat>, cut: nat)
    requires CutsFit(plan, cuts) && CutsFit(plan, cuts + [cut])
    ensures CutAll(plan, cuts + [cut], |cuts| + 1) == CutAll(plan, cuts, |cuts|) + HalvesAt(plan[|cuts|], cut)
  {
    CutAllAgree(plan, cuts + [cut], cuts, |cuts|);
  }

  ghost function CutCount(cuts: seq<nat>, n: nat): nat
    requires n <= |cuts|
  {
    if n == 0 then 0 else CutCount(cuts, n - 1) + (if cuts[n - 1] == 0 then 0 else 1)
  }

  lemma HalvesAtOk(c: Chain, cut: nat, p: Params)
    requires WellTimed(c) && BlockFeasible(c, p) && c != [] && (cut == 0 || cut < |c|)
    ensures Pool(HalvesAt(c, cut)) == multiset(c) && PlanFeasible(HalvesAt(c, cut), p) && NoEmptyChain(HalvesAt(c, cut))
    ensures |HalvesAt(c, cut)| == if cut == 0 then 1 else 2
  {
    hide BlockFeasible;
    if cut == 0 {
      PoolSingle(c);
    } else {
      HalvesOk(c, cut, p);
      PoolTwo(c[..cut], c[cut..]);
    }
  }

  /** Cutting keeps trips and feasibility, and every cut adds one block. */
  lemma {:induction false} CutAllOk(plan: Plan, cuts: seq<nat>, n: nat, p: Params)
    requires Proper(plan, p) && CutsFit(plan, cuts) && n <= |cuts|
    ensures Pool(CutAll(plan, cuts, n)) == PoolTo(plan, n)
    ensures PlanFeasible(CutAll(plan, cuts, n), p) && NoEmptyChain(CutAll(plan, cuts, n))
    ensures |CutAll(plan, cuts, n)| == n + CutCount(cuts, n)
  {
    hide BlockFeasible, HalvesAt;
    if n > 0 {
      CutAllOk(plan, cuts, n - 1, p);
      PoolWellTimed(plan, n - 1);
      HalvesAtOk(plan[n - 1], cuts[n - 1], p);
      PoolConcat(CutAll(plan, cuts, n - 1), HalvesAt(plan[n - 1], cuts[n - 1]));
    }
  }

  /** Splits one block that carries the target id; keeps any other block object itself. */
  method SplitOne(b: Block, target: int, nextId: int) returns (parts: seq<Block>, split: bool, ghost cut: nat)
    ensures split <==> Hit(b, target)
    ensures if split then BestCut(b.trips, cut) && fresh(Objs(parts)) else cut == 0 && parts == [b]
    ensures Distinct(parts) && View(parts) == HalvesAt(b.trips, cut)
    ensures BlockIds(parts) == if split then [b.id, nextId] else [b.id]
  {
    if b.id == target && |b.trips| >= 4 {
      var mid := SplitPoint(b.trips);
      var left := new Block(b.id, b.trips[..mid]);
      var right := new Block(nextId, b.trips[mid..]);
      parts, split, cut := [left, right], true, mid;
    } else {
      parts, split, cut := [b], false, 0;
    }
  }

  /** The ids after the cut: the left half keeps the id of its block, the right halves are numbered from `firstId`. */
  ghost function HalfIds(ids: seq<int>, cuts: seq<nat>, firstId: int, n: nat): seq<int>
    requires n <= |cuts| && n <= |ids|
  {
    if n == 0 then []
    else if cuts[n - 1] == 0 then HalfIds(ids, cuts, firstId, n - 1) + [ids[n - 1]]
    else HalfIds(ids, cuts, firstId, n - 1) + [ids[n - 1], firstId + CutCount(cuts, n - 1)]
  }

  lemma {:induction false} HalfIdsAgree(ids: seq<int>, a: seq<nat>, b: seq<nat>, firstId: int, n: nat)
    requires n <= |a| && n <= |b| && n <= |ids| && forall k :: 0 <= k < n ==> a[k] == b[k]
    ensures HalfIds(ids, a, firstId, n) == HalfIds(ids, b, firstId, n)
  {
    if n > 0 {
      HalfIdsAgree(ids, a, b, firstId, n - 1);
      CutCountAgree(a, b, n - 1);
    }
  }

  lemma HalfIdsOn(ids: seq<int>, cuts: seq<nat>, cut: nat, firstId: int)
    requires |cuts| < |ids|
    ensures var k := |cuts|; var nextId := firstId + CutCount(cuts, k);
      && CutCount(cuts + [cut], k + 1) == CutCount(cuts, k) + (if cut == 0 then 0 else 1)
      && HalfIds(ids, cuts + [cut], firstId, k + 1) ==
           HalfIds(ids, cuts, firstId, k) + if cut == 0 then [ids[k]] else [ids[k], nextId]
  {
    HalfIdsAgree(ids, cuts + [cut], cuts, firstId, |cuts|);
    CutCountAgree(cuts + [cut], cuts, |cuts|);
  }

  lemma IdsConcat(a: seq<Block>, b: seq<Block>)
    ensures BlockIds(a + b) == BlockIds(a) + BlockIds(b)
  {
  }

  /** Every uncut block in the place it had. */
  ghost predicate KeepPlaces(bs: seq<Block>, blocks: seq<Block>, cuts: seq<nat>) {
    && |cuts| <= |bs| && |blocks| == |cuts| + CutCount(cuts, |cuts|)
    && forall k :: 0 <= k < |cuts| && cuts[k] == 0 ==>
         var at := k + CutCount(cuts, k); at < |blocks| && blocks[at] == bs[k]
  }

  lemma KeepPlacesOn(bs: seq<Block>, blocks: seq<Block>, parts: seq<Block>, cuts: seq<nat>, cut: nat)
    requires KeepPlaces(bs, blocks, cuts) && |cuts| < |bs|
    requires if cut == 0 then parts == [bs[|cuts|]] else |parts| == 2
    ensures KeepPlaces(bs, blocks + parts, cuts + [cut])
  {
    forall k | 0 <= k <= |cuts| ensures CutCount(cuts + [cut], k) == CutCount(cuts, k) {
      CutCountAgree(cuts + [cut], cuts, k);
    }
  }

  lemma {:induction false} CutCountAgree(a: seq<nat>, b: seq<nat>, n: nat)
    requires n <= |a| && n <= |b| && forall k :: 0 <= k < n ==> a[k] == b[k]
    ensures CutCount(a, n) == CutCount(b, n)
  {
    if n > 0 { CutCountAgree(a, b, n - 1); }
  }

  /** The block list for one target id. It shares the untouched block objects with the seed. */
  method SplitTarget(sol: VspSolution, target: int, firstId: int)
    returns (blocks: seq<Block>, done: bool, ghost cuts: seq<nat>)
    requires Distinct(sol.blocks)
    ensures CutsFor(sol.blocks, target, cuts) && |cuts| == |sol.blocks| && CutsFit(View(sol.blocks), cuts)
    ensures done <==> exists k :: 0 <= k < |cuts| && cuts[k] > 0
    ensures Distinct(blocks) && View(blocks) == CutAll(View(sol.blocks), cuts, |cuts|)
    ensures fresh(Objs(blocks) - Objs(sol.blocks))
    ensures forall b :: b in sol.blocks ==> (b in blocks <==> !Hit(b, target))
    ensures KeepPlaces(sol.blocks, blocks, cuts)
    ensures BlockIds(blocks) == HalfIds(BlockIds(sol.blocks), cuts, firstId, |cuts|)
  {
    hide ViewTo, BlockIdsTo, SplitSoFar, CutCount;
    blocks, done, cuts := [], false, [];
    NoneSplit(sol.blocks, target, firstId);
    var nextId := firstId;
    for k := 0 to |sol.blocks|
      invariant |cuts| == k && SplitSoFar(sol.blocks, blocks, target, cuts, firstId)
      invariant nextId == firstId + CutCount(cuts, k)
      invariant done <==> exists l :: 0 <= l < |cuts| && cuts[l] > 0
      invariant fresh(Objs(blocks) - Objs(sol.blocks))
    {
      blocks, nextId, done, cuts := SplitStep(sol, k, target, nextId, done, blocks, cuts, firstId);
    }
    AllSplit(sol.blocks, blocks, target, cuts, firstId);
  }

  /** The first blocks, as many as there are cuts, have been dealt with. */
  ghost predicate SplitSoFar(bs: seq<Block>, blocks: seq<Block>, target: int, cuts: seq<nat>, firstId: int)
    reads Objs(bs), Objs(blocks)
  {
    && Distinct(bs) && CutsFor(bs, target, cuts) && CutsFit(View(bs), cuts)
    && Distinct(blocks) && Objs(blocks) !! Objs(bs[|cuts|..]) && KeptAreUnhit(bs, blocks, target, |cuts|)
    && View(blocks) == CutAll(View(bs), cuts, |cuts|)
    && BlockIds(blocks) == HalfIds(BlockIds(bs), cuts, firstId, |cuts|)
    && KeepPlaces(bs, blocks, cuts)
  }

  /** Of the first k blocks, just those not hit are on the new list. */
  ghost predicate KeptAreUnhit(bs: seq<Block>, blocks: seq<Block>, target: int, k: nat)
    requires k <= |bs|
    reads Objs(bs)
  {
    forall l :: 0 <= l < k ==> (bs[l] in blocks <==> !Hit(bs[l], target))
  }

  lemma NoneSplit(bs: seq<Block>, target: int, firstId: int)
    requires Distinct(bs)
    ensures SplitSoFar(bs, [], target, [], firstId) && CutCount([], 0) == 0
  {
    hide ViewTo, BlockIdsTo;
  }

  lemma AllSplit(bs: seq<Block>, blocks: seq<Block>, target: int, cuts: seq<nat>, firstId: int)
    requires SplitSoFar(bs, blocks, target, cuts, firstId) && |cuts| == |bs|
    ensures CutsFor(bs, target, cuts) && CutsFit(View(bs), cuts)
    ensures Distinct(blocks) && View(blocks) == CutAll(View(bs), cuts, |cuts|)
    ensures forall b :: b in bs ==> (b in blocks <==> !Hit(b, target))
    ensures KeepPlaces(bs, blocks, cuts)
    ensures BlockIds(blocks) == HalfIds(BlockIds(bs), cuts, firstId, |cuts|)
  {
    hide ViewTo, BlockIdsTo, Hit, KeepPlaces, CutsFor, CutsFit;
    forall b | b in bs ensures b in blocks <==> !Hit(b, target) {
      var l :| 0 <= l < |bs| && bs[l] == b;
    }
  }

  lemma CutOn(bs: seq<Block>, plan: Plan, target: int, cuts: seq<nat>, cut: nat)
    requires |cuts| < |bs| && plan == View(bs) && CutsFor(bs, target, cuts) && CutsFit(plan, cuts)
    requires if Hit(bs[|cuts|], target) then BestCut(bs[|cuts|].trips, cut) else cut == 0
    ensures CutsFor(bs, target, cuts + [cut]) && CutsFit(plan, cuts + [cut])
  {
    hide ViewTo, BlockIdsTo;
  }

  lemma KeptOn(bs: seq<Block>, blocks: seq<Block>, parts: seq<Block>, target: int, k: nat)
    requires k < |bs| && Distinct(bs) && KeptAreUnhit(bs, blocks, target, k) && bs[k] !in blocks
    requires if Hit(bs[k], target) then Objs(parts) !! Objs(bs) else parts == [bs[k]]
    ensures KeptAreUnhit(bs, blocks + parts, target, k + 1)
  {
    forall l | 0 <= l <= k ensures bs[l] in blocks + parts <==> !Hit(bs[l], target) {
      assert bs[l] in Objs(bs);
      assert bs[l] in parts ==> bs[l] in Objs(parts);
    }
  }

  /** One more block, kept or split. */
  lemma SplitOn(bs: seq<Block>, blocks: seq<Block>, parts: seq<Block>, target: int, cuts: seq<nat>, cut: nat,
                firstId: int)
    requires |cuts| < |bs| && SplitSoFar(bs, blocks, target, cuts, firstId)
    requires var b := bs[|cuts|];
      if Hit(b, target) then BestCut(b.trips, cut) && Objs(parts) !! Objs(bs) + Objs(blocks) && |parts| == 2
      else cut == 0 && parts == [b]
    requires Distinct(parts) && View(parts) == HalvesAt(bs[|cuts|].trips, cut)
    requires BlockIds(parts) ==
      if cut == 0 then [bs[|cuts|].id] else [bs[|cuts|].id, firstId + CutCount(cuts, |cuts|)]
    ensures SplitSoFar(bs, blocks + parts, target, cuts + [cut], firstId)
  {
    hide ViewTo, BlockIdsTo, HalvesAt, HalfIds, CutAll, CutCount, BestCut, CutsFor, CutsFit, KeptAreUnhit, KeepPlaces;
    ApartFrom(bs, blocks, parts, |cuts|);
    CutOn(bs, View(bs), target, cuts, cut);
    KeptOn(bs, blocks, parts, target, |cuts|);
    hide Hit, Objs;
    ListsOn(bs, blocks, parts, cuts, cut, firstId);
    KeepPlacesOn(bs, blocks, parts, cuts, cut);
  }

  lemma ListsOn(bs: seq<Block>, blocks: seq<Block>, parts: seq<Block>, cuts: seq<nat>, cut: nat, firstId: int)
    requires |cuts| < |bs| && CutsFit(View(bs), cuts) && CutsFit(View(bs), cuts + [cut])
    requires Distinct(blocks) && Distinct(parts) && Objs(blocks) !! Objs(parts)
    requires View(blocks) == CutAll(View(bs), cuts, |cuts|) && View(parts) == HalvesAt(bs[|cuts|].trips, cut)
    requires BlockIds(blocks) == HalfIds(BlockIds(bs), cuts, firstId, |cuts|)
    requires BlockIds(parts) ==
      if cut == 0 then [bs[|cuts|].id] else [bs[|cuts|].id, firstId + CutCount(cuts, |cuts|)]
    ensures Distinct(blocks + parts) && View(blocks + parts) == CutAll(View(bs), cuts + [cut], |cuts| + 1)
    ensures BlockIds(blocks + parts) == HalfIds(BlockIds(bs), cuts + [cut], firstId, |cuts| + 1)
  {
    hide ViewTo, BlockIdsTo, HalvesAt, HalfIds, CutAll, CutCount, CutsFit, Objs;
    CutAllOn(View(bs), cuts, cut);
    ViewConcat(blocks, parts);
    HalfIdsOn(BlockIds(bs), cuts, cut, firstId);
    IdsConcat(blocks, parts);
  }

  lemma ApartFrom(bs: seq<Block>, blocks: seq<Block>, parts: seq<Block>, k: nat)
    requires k < |bs| && Distinct(bs) && Objs(blocks) !! Objs(bs[k..])
    requires parts == [bs[k]] || Objs(parts) !! Objs(bs) + Objs(blocks)
    ensures bs[k] !in blocks && Objs(blocks) !! Objs(parts) && Objs(blocks + parts) !! Objs(bs[k + 1..])
  {
    assert bs[k] == bs[k..][0] && bs[k] in Objs(bs[k..]);
    forall b | b in bs[k + 1..] ensures b !in blocks + parts {
      var j :| 0 <= j < |bs| - k - 1 && bs[k + 1..][j] == b;
      assert b == bs[k + 1 + j] == bs[k..][1 + j];
      assert b in Objs(bs[k..]) && b in Objs(bs);
      assert b in parts ==> b in Objs(parts);
    }
  }

  method SplitStep(sol: VspSolution, k: nat, target: int, nextId: int, done: bool, blocks: seq<Block>,
                   ghost cuts: seq<nat>, ghost firstId: int)
    returns (more: seq<Block>, nextId': int, done': bool, ghost cuts': seq<nat>)
    requires k < |sol.blocks| && |cuts| == k && SplitSoFar(sol.blocks, blocks, target, cuts, firstId)
    requires nextId == firstId + CutCount(cuts, k)
    ensures |cuts'| == k + 1 && cuts'[..k] == cuts && (done' <==> done || cuts'[k] > 0)
    ensures SplitSoFar(sol.blocks, more, target, cuts', firstId) && nextId' == firstId + CutCount(cuts', k + 1)
    ensures fresh(Objs(more) - Objs(blocks) - Objs(sol.blocks))
  {
    hide ViewTo, BlockIdsTo, HalvesAt, BestCut, SplitSoFar, CutCount;
    var parts, split;
    ghost var cut;
    parts, split, cut := SplitOne(sol.blocks[k], target, nextId);
    assert old(SplitSoFar(sol.blocks, blocks, target, cuts, firstId));
    assert forall b | b in Objs(sol.blocks) + Objs(blocks) :: old(allocated(b));
    SplitOn(sol.blocks, blocks, parts, target, cuts, cut, firstId);
    CutCountOn(cuts, cut);
    more := blocks + parts;
    assert Objs(more) == Objs(blocks) + Objs(parts);
    assert !split ==> Objs(parts) <= Objs(sol.blocks);
    cuts' := cuts + [cut];
    nextId' := if split then nextId + 1 else nextId;
    done' := done || split;
  }

  lemma CutCountOn(cuts: seq<nat>, cut: nat)
    ensures CutCount(cuts + [cut], |cuts| + 1) == CutCount(cuts, |cuts|) + (if cut == 0 then 0 else 1)
  {
    CutCountAgree(cuts + [cut], cuts, |cuts|);
  }
}
