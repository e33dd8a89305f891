// Moving the last trips of one block to the end of another (`_generate_tail_relocation_candidates`).
module TailRelocation {
  import opened Wrappers
  import opened Domain
  import opened Kernel
  import opened Plans
  import opened Blocks
  import opened Moves
  import opened Candidates

  // ---- what one relocation does to the chains of a plan, whatever their order ----

  /** `size` trips may move from the end of chain b to the end of chain a. */
  ghost predicate Relocatable(chains: multiset<Chain>, a: Chain, b: Chain, size: nat, maxTail: int, p: Params) {
    && multiset{a, b} <= chains
    && 0 < size < |b| && size <= maxTail
    && CanAppendSuffix(a, b[|b| - size..], p).Accepted?
  }

  ghost function Relocated(chains: multiset<Chain>, a: Chain, b: Chain, size: nat): multiset<Chain>
    requires size <= |b|
  {
    chains - multiset{a, b} + multiset{a + b[|b| - size..], b[..|b| - size]}
  }

  ghost predicate IsRelocation(after: multiset<Chain>, chains: multiset<Chain>, a: Chain, b: Chain, size: nat,
                               maxTail: int, p: Params) {
    Relocatable(chains, a, b, size, maxTail, p) && after == Relocated(chains, a, b, size)
  }

  lemma TailMovedChains(plan: Plan, recipient: nat, donor: nat, size: nat)
    requires recipient < |plan| && donor < |plan| && recipient != donor && size <= |plan[donor]|
    ensures multiset{plan[recipient], plan[donor]} <= multiset(plan)
    ensures multiset(TailMoved(plan, recipient, donor, size))
         == Relocated(multiset(plan), plan[recipient], plan[donor], size)
  {
    PairInPlan(plan, recipient, donor);
    var cut := |plan[donor]| - size;
    var a, b := plan[recipient] + plan[donor][cut..], plan[donor][..cut];
    assert TailMoved(plan, recipient, donor, size) == plan[recipient := a][donor := b];
    hide TailMoved;
    ReplaceTwo(plan, recipient, donor, a, b);
  }

  /** Builds one relocation candidate on its own copies. */
  method RelocateTail(base: seq<Block>, recipient: nat, donor: nat, size: nat, unassigned: seq<Trip>,
                      ghost plan: Plan, ghost p: Params)
    returns (vsp: VspSolution)
    requires Distinct(base) && Proper(View(base), p) && Rearranged(plan, View(base), p)
    requires recipient < |base| && donor < |base| && recipient != donor && 0 < size < |base[donor].trips|
    requires CanAppendSuffix(View(base)[recipient], View(base)[donor][|View(base)[donor]| - size..], p).Accepted?
    ensures fresh(Objs(vsp.blocks)) && vsp.unassigned == unassigned
    ensures Holds(vsp, plan, p) && |vsp.blocks| == |base|
    ensures multiset(View(vsp.blocks)) ==
      Relocated(multiset(View(base)), View(base)[recipient], View(base)[donor], size)
  {
    hide PoolTo, ViewTo, BlockFeasible, EdgeFeasible, TailMoved, CanAppendSuffix, Relocated, Rearranged, Proper,
      DropEmptyTo, Ordered;
    ghost var from := View(base);
    var blocks := CopyBlocks(base);
    RelocationOk(plan, from, recipient, donor, size, p);
    MoveTail(blocks, recipient, donor, size, p);
    assert View(blocks) == TailMoved(from, recipient, donor, size);
    vsp := Finish(blocks, unassigned, plan, p);
    assert View(base) == from;
  }

  lemma RelocationOk(plan: Plan, from: Plan, recipient: nat, donor: nat, size: nat, p: Params)
    requires Proper(from, p) && Rearranged(plan, from, p)
    requires recipient < |from| && donor < |from| && recipient != donor && 0 < size < |from[donor]|
    requires CanAppendSuffix(from[recipient], from[donor][|from[donor]| - size..], p).Accepted?
    ensures var after := TailMoved(from, recipient, donor, size);
      && Pool(after) == Pool(plan) && PlanFeasible(after, p)
      && DropEmpty(after) == after && Vehicles(after) == |from|
      && multiset(after) == Relocated(multiset(from), from[recipient], from[donor], size)
  {
    hide PoolTo, BlockFeasible, TailMoved, CanAppendSuffix, Relocated, DropEmptyTo;
    TailMovedChains(from, recipient, donor, size);
    TailMovedOk(from, recipient, donor, size, p);
    DropEmptyKeeps(TailMoved(from, recipient, donor, size), p);
  }

  method MoveTail(blocks: seq<Block>, recipient: nat, donor: nat, size: nat, ghost p: Params)
    requires Distinct(blocks) && Proper(View(blocks), p)
    requires recipient < |blocks| && donor < |blocks| && recipient != donor && 0 < size < |blocks[donor].trips|
    requires CanAppendSuffix(View(blocks)[recipient], View(blocks)[donor][|View(blocks)[donor]| - size..], p).Accepted?
    modifies Objs(blocks)`trips
    ensures View(blocks) == TailMoved(old(View(blocks)), recipient, donor, size)
  {
    hide CanAppendSuffix, SortTrips, RemoveIds, IdsOf, Proper;
    ghost var plan := View(blocks);
    MovedTrips(plan, recipient, donor, size, p);
    var suffix := blocks[donor].trips[|blocks[donor].trips| - size..];
    var ids := IdsOf(suffix);
    blocks[recipient].trips := SortTrips(blocks[recipient].trips + suffix);
    blocks[donor].trips := RemoveIds(blocks[donor].trips, ids);
  }

  /** Sorting the grown recipient and filtering the donor by id give exactly the two chains of the move. */
  lemma MovedTrips(plan: Plan, recipient: nat, donor: nat, size: nat, p: Params)
    requires Proper(plan, p)
    requires recipient < |plan| && donor < |plan| && recipient != donor && 0 < size < |plan[donor]|
    requires CanAppendSuffix(plan[recipient], plan[donor][|plan[donor]| - size..], p).Accepted?
    ensures var cut := |plan[donor]| - size;
      && SortTrips(plan[recipient] + plan[donor][cut..]) == plan[recipient] + plan[donor][cut..]
      && RemoveIds(plan[donor], IdsOf(plan[donor][cut..])) == plan[donor][..cut]
  {
    hide CanAppendSuffix, SortTrips, RemoveIds, BlockFeasible, PoolTo, IdsOf;
    var cut := |plan[donor]| - size;
    var head, tail := plan[donor][..cut], plan[donor][cut..];
    PoolWellTimed(plan, donor);
    PoolWellTimed(plan, recipient);
    HalvesOk(plan[donor], cut, p);
    SuffixCheckExact(plan[recipient], tail, p);
    SortOfFeasible(plan[recipient] + tail, p);
    SplitIds(plan, donor, cut);
    RemoveSuffixIds(head, tail, IdsOf(tail));
    assert head + tail == plan[donor];
  }

  /** No trip before the cut shares its id with one behind it. */
  lemma SplitIds(plan: Plan, donor: nat, cut: nat)
    requires DistinctIds(Pool(plan)) && donor < |plan| && cut <= |plan[donor]|
    ensures forall t :: t in plan[donor][..cut] ==> t.id !in IdsOf(plan[donor][cut..])
  {
    var head, tail := plan[donor][..cut], plan[donor][cut..];
    ChainIdsDistinct(plan, donor);
    forall t | t in head ensures t.id !in IdsOf(tail) {
      var i :| 0 <= i < cut && head[i] == t;
      forall u | u in tail ensures u.id != t.id {
        var j :| 0 <= j < |tail| && tail[j] == u;
        assert plan[donor][cut + j] == u && plan[donor][i] == t;
      }
    }
  }

  // ---- the enumeration ----

  /** Relocations of up to n trips from block d to block r are all on the trail. */
  ghost predicate Tried(trail: Trail, from: Plan, r: nat, d: nat, n: int, p: Params)
    requires r < |from| && d < |from|
  {
    forall size: nat :: 0 < size <= n && size < |from[d]| &&
      CanAppendSuffix(from[r], from[d][|from[d]| - size..], p).Accepted?
      ==> Relocated(multiset(from), from[r], from[d], size) in trail.chains
  }

  ghost predicate OnlyRelocations(trail: Trail, chains: multiset<Chain>, maxTail: int, p: Params) {
    forall v :: v in trail.chains ==>
      exists a, b, size :: IsRelocation(v, chains, a, b, size, maxTail, p)
  }

  /** One more size: the relocation joins the trail when the suffix check accepts it. */
  lemma TriedMore(trail: Trail, more: Trail, from: Plan, r: nat, d: nat, size: nat, maxTail: int, p: Params)
    requires r < |from| && d < |from| && r != d && 0 < size < |from[d]| && size <= maxTail
    requires Tried(trail, from, r, d, size - 1, p) && OnlyRelocations(trail, multiset(from), maxTail, p)
    requires if CanAppendSuffix(from[r], from[d][|from[d]| - size..], p).Accepted?
             then Grown(trail, more, Relocated(multiset(from), from[r], from[d], size)) else more == trail
    ensures OnlyRelocations(more, multiset(from), maxTail, p) && Keeps(trail, more)
    ensures Tried(more, from, r, d, size, p)
  {
    hide CanAppendSuffix, Relocated;
    PairInPlan(from, r, d);
    if CanAppendSuffix(from[r], from[d][|from[d]| - size..], p).Accepted? {
      assert IsRelocation(Relocated(multiset(from), from[r], from[d], size), multiset(from), from[r], from[d], size,
        maxTail, p);
    }
  }

  /** Tries one recipient, donor and tail size. */
  method TryTail(base: seq<Block>, recipient: nat, donor: nat, size: nat, maxTail: int, unassigned: seq<Trip>,
                 cands: seq<Candidate>, seen: set<seq<seq<int>>>, ghost trail: Trail, ghost plan: Plan, p: Params)
    returns (more: seq<Candidate>, seen': set<seq<seq<int>>>, ghost trail': Trail)
    requires Distinct(base) && Proper(View(base), p) && Proper(plan, p) && Rearranged(plan, View(base), p)
    requires |base| == |plan|
    requires recipient < |base| && donor < |base| && recipient != donor && 0 < size < |base[donor].trips|
    requires size <= maxTail
    requires Gathered(cands, plan, unassigned, |plan|, |plan|, p) && Tracked(cands, seen, trail)
    requires OnlyRelocations(trail, multiset(View(base)), maxTail, p)
    requires Tried(trail, View(base), recipient, donor, size - 1, p)
    ensures Gathered(more, plan, unassigned, |plan|, |plan|, p) && Tracked(more, seen', trail')
    ensures OnlyRelocations(trail', multiset(View(base)), maxTail, p) && Keeps(trail, trail')
    ensures Tried(trail', View(base), recipient, donor, size, p)
    ensures fresh(Parts(more) - Parts(cands))
  {
    hide PoolTo, ViewTo, BlockFeasible, EdgeFeasible, Holds, CanAppendSuffix, Relocated, OnlyRelocations, Tracked,
      Gathered, Tried, Grown, Keeps;
    ghost var from := View(base);
    more, seen', trail' := cands, seen, trail;
    var sorted := SortTrips(base[donor].trips);
    PoolWellTimed(from, donor);
    SortOfFeasible(from[donor], p);
    var suffix := sorted[|sorted| - size..];
    var verdict := CanAppendSuffix(base[recipient].trips, suffix, p);
    if verdict.Accepted? {
      var vsp := RelocateTail(base, recipient, donor, size, unassigned, plan, p);
      assert View(base) == from;
      assert multiset(View(vsp.blocks)) == Relocated(multiset(from), from[recipient], from[donor], size);
      assert old(Gathered(cands, plan, unassigned, |plan|, |plan|, p)) && old(Tracked(cands, seen, trail));
      assert forall b | b in Parts(cands) :: old(allocated(b));
      var key: seq<int> := [verdict.gap, -(size as int), base[recipient].id, base[donor].id];
      more, seen', trail' := AddCandidate(vsp, key, cands, seen, trail, plan, unassigned, |plan|, |plan|, p);
      assert View(base) == from;
    }
    TriedMore(trail, trail', from, recipient, donor, size, maxTail, p);
  }

  /** Tries every tail size for one recipient and donor. */
  method TryTails(base: seq<Block>, recipient: nat, donor: nat, maxTail: int, unassigned: seq<Trip>,
                  cands: seq<Candidate>, seen: set<seq<seq<int>>>, ghost trail: Trail, ghost plan: Plan, p: Params)
    returns (more: seq<Candidate>, seen': set<seq<seq<int>>>, ghost trail': Trail)
    requires Distinct(base) && Proper(View(base), p) && Proper(plan, p) && Rearranged(plan, View(base), p)
    requires |base| == |plan|
    requires recipient < |base| && donor < |base| && maxTail > 0
    requires Gathered(cands, plan, unassigned, |plan|, |plan|, p) && Tracked(cands, seen, trail)
    requires OnlyRelocations(trail, multiset(View(base)), maxTail, p)
    ensures Gathered(more, plan, unassigned, |plan|, |plan|, p) && Tracked(more, seen', trail')
    ensures OnlyRelocations(trail', multiset(View(base)), maxTail, p) && Keeps(trail, trail')
    ensures recipient != donor ==> Tried(trail', View(base), recipient, donor, maxTail, p)
    ensures fresh(Parts(more) - Parts(cands))
  {
    hide PoolTo, ViewTo, BlockFeasible, EdgeFeasible, Holds, Proper, Rearranged, CanAppendSuffix, Relocated,
      OnlyRelocations, Tracked, Gathered;
    ghost var from := View(base);
    more, seen', trail' := cands, seen, trail;
    if recipient != donor && |base[donor].trips| >= 2 {
      for size := 1 to Min(maxTail, |base[donor].trips| - 1) + 1
        invariant View(base) == from
        invariant Gathered(more, plan, unassigned, |plan|, |plan|, p) && fresh(Parts(more) - Parts(cands))
        invariant Tracked(more, seen', trail') && OnlyRelocations(trail', multiset(from), maxTail, p)
        invariant Keeps(trail, trail') && Tried(trail', from, recipient, donor, size - 1, p)
      {
        more, seen', trail' := TryTail(base, recipient, donor, size, maxTail, unassigned, more, seen', trail', plan, p);
      }
    }
  }

  /** Everything relocatable in the plan is on the trail. */
  ghost predicate AllRelocations(trail: Trail, chains: multiset<Chain>, maxTail: int, p: Params) {
    forall a, b, size :: Relocatable(chains, a, b, size, maxTail, p) ==>
      exists v :: v in trail.chains && IsRelocation(v, chains, a, b, size, maxTail, p)
  }

  lemma TriedAll(trail: Trail, from: Plan, maxTail: int, p: Params)
    requires forall r :: 0 <= r < |from| ==> TriedFor(trail, from, r, |from|, maxTail, p)
    ensures AllRelocations(trail, multiset(from), maxTail, p)
  {
    hide CanAppendSuffix, Relocated;
    forall a, b, size | Relocatable(multiset(from), a, b, size, maxTail, p)
      ensures exists v :: v in trail.chains && IsRelocation(v, multiset(from), a, b, size, maxTail, p)
    {
      var r, d := PlacesOfPair(from, a, b);
      assert TriedFor(trail, from, r, |from|, maxTail, p);
      assert Tried(trail, from, r, d, maxTail, p);
      assert IsRelocation(Relocated(multiset(from), a, b, size), multiset(from), a, b, size, maxTail, p);
    }
  }

  /** The list holds relocations only, and unless it was cut off at the limit it holds every one of them. */
  ghost predicate Relocations(cands: seq<Candidate>, chains: multiset<Chain>, limit: int, maxTail: int, p: Params)
    reads Parts(cands)`trips
  {
    && (forall c :: c in cands ==>
          exists a, b, size :: IsRelocation(multiset(View(c.vsp.blocks)), chains, a, b, size, maxTail, p))
    && (|cands| < limit && maxTail > 0 ==> forall a, b, size :: Relocatable(chains, a, b, size, maxTail, p) ==>
          exists c :: c in cands && IsRelocation(multiset(View(c.vsp.blocks)), chains, a, b, size, maxTail, p))
  }

  lemma ShortlistRelocations(cands: seq<Candidate>, seen: set<seq<seq<int>>>, trail: Trail, chains: multiset<Chain>,
                             limit: int, maxTail: int, p: Params)
    requires limit > 0 && Tracked(cands, seen, trail)
    requires OnlyRelocations(trail, chains, maxTail, p) && AllRelocations(trail, chains, maxTail, p)
    ensures Relocations(Shortlist(cands, limit), chains, limit, maxTail, p)
  {
    hide Relocatable, IsRelocation, Shortlist, Signature, ViewTo;
    ShortlistFacts(cands, limit);
    var r := Shortlist(cands, limit);
    forall c | c in r
      ensures exists a, b, size :: IsRelocation(multiset(View(c.vsp.blocks)), chains, a, b, size, maxTail, p)
    {
      var k :| 0 <= k < |cands| && cands[k] == c;
      assert trail.chains[k] in trail.chains;
    }
    if |r| < limit {
      forall a, b, size | Relocatable(chains, a, b, size, maxTail, p)
        ensures exists c :: c in r && IsRelocation(multiset(View(c.vsp.blocks)), chains, a, b, size, maxTail, p)
      {
        var v :| v in trail.chains && IsRelocation(v, chains, a, b, size, maxTail, p);
        var k :| 0 <= k < |trail.chains| && trail.chains[k] == v;
        assert cands[k] in cands;
      }
    }
  }

  /** `_generate_tail_relocation_candidates`. */
  method GenerateTailCandidates(sol: VspSolution, raw: RawParams, limit: int, maxTail: int)
    returns (cands: seq<Candidate>)
    requires Proper(View(sol.blocks), Extract(raw))
    ensures Gathered(cands, old(View(sol.blocks)), sol.unassigned, |sol.blocks|, |sol.blocks|, Extract(raw))
    ensures Relocations(cands, multiset(old(View(sol.blocks))), limit, maxTail, Extract(raw))
    ensures fresh(Parts(cands)) && |cands| <= Max(limit, 0)
  {
    hide PoolTo, ViewTo, BlockFeasible, EdgeFeasible, Holds, Proper, Rearranged, Relocated, Relocatable, IsRelocation,
      Tried, OnlyRelocations, AllRelocations, Shortlist, Tracked;
    if limit <= 0 || maxTail <= 0 {
      return [];
    }
    var p := Extract(raw);
    ghost var plan := View(sol.blocks);
    var base := SeedBlocks(sol);
    ghost var from := View(base);
    SeedProper(plan, from, p);
    var all, seen;
    ghost var trail;
    all, seen, trail := EnumerateTails(base, maxTail, sol.unassigned, plan, p);
    TriedAll(trail, from, maxTail, p);
    ShortlistFacts(all, limit);
    ShortlistRelocations(all, seen, trail, multiset(plan), limit, maxTail, p);
    cands := Shortlist(all, limit);
    PartsSubset(cands, all);
  }

  /** The loop over the recipients. */
  method EnumerateTails(base: seq<Block>, maxTail: int, unassigned: seq<Trip>, ghost plan: Plan, p: Params)
    returns (cands: seq<Candidate>, seen: set<seq<seq<int>>>, ghost trail: Trail)
    requires Distinct(base) && Proper(View(base), p) && Proper(plan, p) && Rearranged(plan, View(base), p)
    requires |base| == |plan|
    requires maxTail > 0
    ensures Gathered(cands, plan, unassigned, |plan|, |plan|, p) && Tracked(cands, seen, trail) && fresh(Parts(cands))
    ensures OnlyRelocations(trail, multiset(View(base)), maxTail, p)
    ensures forall r :: 0 <= r < |base| ==> TriedFor(trail, View(base), r, |base|, maxTail, p)
  {
    cands, seen, trail := [], {}, Trail([], []);
    ghost var from := View(base);
    NoneTracked(plan, unassigned, |plan|, |plan|, p);
    NoneTried(from, maxTail, p);
    hide PoolTo, ViewTo, BlockFeasible, EdgeFeasible, Holds, Proper, Rearranged, Tried, OnlyRelocations, Tracked,
      Gathered, TriedFor;
    for r := 0 to |base|
      invariant View(base) == from
      invariant Gathered(cands, plan, unassigned, |plan|, |plan|, p) && Tracked(cands, seen, trail)
      invariant fresh(Parts(cands))
      invariant OnlyRelocations(trail, multiset(from), maxTail, p)
      invariant forall r' :: 0 <= r' < r ==> TriedFor(trail, from, r', |base|, maxTail, p)
    {
      ghost var before := trail;
      cands, seen, trail := TryDonors(base, r, maxTail, unassigned, cands, seen, trail, plan, p);
      forall r' | 0 <= r' < r ensures TriedFor(trail, from, r', |base|, maxTail, p) {
        KeepsTried(before, trail, from, r', |base|, maxTail, p);
      }
    }
  }

  /** Every tail of the first n blocks other than r was tried on block r. */
  ghost predicate TriedFor(trail: Trail, from: Plan, r: nat, n: nat, maxTail: int, p: Params)
    requires r < |from| && n <= |from|
  {
    forall d :: 0 <= d < n && d != r ==> Tried(trail, from, r, d, maxTail, p)
  }

  /** The loop over the donors. */
  method TryDonors(base: seq<Block>, recipient: nat, maxTail: int, unassigned: seq<Trip>,
                   cands: seq<Candidate>, seen: set<seq<seq<int>>>, ghost trail: Trail, ghost plan: Plan, p: Params)
    returns (more: seq<Candidate>, seen': set<seq<seq<int>>>, ghost trail': Trail)
    requires Distinct(base) && Proper(View(base), p) && Proper(plan, p) && Rearranged(plan, View(base), p)
    requires |base| == |plan|
    requires recipient < |base| && maxTail > 0
    requires Gathered(cands, plan, unassigned, |plan|, |plan|, p) && Tracked(cands, seen, trail)
    requires OnlyRelocations(trail, multiset(View(base)), maxTail, p)
    ensures Gathered(more, plan, unassigned, |plan|, |plan|, p) && Tracked(more, seen', trail')
    ensures OnlyRelocations(trail', multiset(View(base)), maxTail, p) && Keeps(trail, trail')
    ensures TriedFor(trail', View(base), recipient, |base|, maxTail, p)
    ensures fresh(Parts(more) - Parts(cands))
  {
    hide PoolTo, ViewTo, BlockFeasible, EdgeFeasible, Holds, Proper, Rearranged, Tried, OnlyRelocations, Tracked,
      Gathered;
    ghost var from := View(base);
    more, seen', trail' := cands, seen, trail;
    for d := 0 to |base|
      invariant View(base) == from
      invariant Gathered(more, plan, unassigned, |plan|, |plan|, p) && Tracked(more, seen', trail')
      invariant fresh(Parts(more) - Parts(cands))
      invariant OnlyRelocations(trail', multiset(from), maxTail, p) && Keeps(trail, trail')
      invariant TriedFor(trail', from, recipient, d, maxTail, p)
    {
      ghost var before := trail';
      more, seen', trail' := TryTails(base, recipient, d, maxTail, unassigned, more, seen', trail', plan, p);
      KeepsTried(before, trail', from, recipient, d, maxTail, p);
    }
  }

  lemma NoneTried(from: Plan, maxTail: int, p: Params)
    ensures OnlyRelocations(Trail([], []), multiset(from), maxTail, p)
  {
  }

  lemma KeepsTried(trail: Trail, more: Trail, from: Plan, r: nat, n: nat, maxTail: int, p: Params)
    requires Keeps(trail, more) && r < |from| && n <= |from| && TriedFor(trail, from, r, n, maxTail, p)
    ensures TriedFor(more, from, r, n, maxTail, p)
  {
    hide CanAppendSuffix, Relocated;
    forall d | 0 <= d < n && d != r ensures Tried(more, from, r, d, maxTail, p) {
      assert Tried(trail, from, r, d, maxTail, p);
    }
  }
}
