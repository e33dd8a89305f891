// Candidate solutions the post-optimiser generates from a seed solution without touching it.
module Candidates {
  import opened Wrappers
  import opened Domain
  import opened Kernel
  import opened Plans
  import opened Sorting
  import opened Blocks
  import opened Moves

  /** A rewritten solution and the tuple its list is sorted by. */
  datatype Candidate = Candidate(vsp: VspSolution, key: seq<int>)

  /** The solution runs exactly the plan's trips, in feasible non-empty blocks. */
  ghost predicate Holds(sol: VspSolution, plan: Plan, p: Params)
    reads Objs(sol.blocks)`trips
  {
    Distinct(sol.blocks) && Rearranged(plan, View(sol.blocks), p)
  }

  ghost function Parts(cands: seq<Candidate>): set<Block> {
    set c, b | c in cands && b in c.vsp.blocks :: b
  }

  /** The trip ids of each block, in (start, id) order of the blocks. */
  function Signature(sol: VspSolution): seq<seq<int>>
    reads Objs(sol.blocks)
  {
    IdRows(View(SortBlocks(sol.blocks, true)))
  }

  function TripIds(c: Chain): seq<int> {
    seq(|c|, i requires 0 <= i < |c| => c[i].id)
  }

  function IdRows(plan: Plan): seq<seq<int>> {
    seq(|plan|, i requires 0 <= i < |plan| => TripIds(plan[i]))
  }

  /** Two plans over the same trips with the same rows of ids are the same plan. */
  lemma IdRowsDecide(a: Plan, b: Plan)
    requires DistinctIds(Pool(a)) && Pool(b) == Pool(a) && IdRows(a) == IdRows(b)
    ensures a == b
  {
    hide PoolTo, TripIds;
    assert |a| == |IdRows(a)| == |b|;
    forall i | 0 <= i < |a| ensures a[i] == b[i] {
      assert IdRows(a)[i] == IdRows(b)[i];
      ChainIdsDecide(a, b, i);
    }
  }

  lemma ChainIdsDecide(a: Plan, b: Plan, i: nat)
    requires DistinctIds(Pool(a)) && Pool(b) == Pool(a)
    requires i < |a| && i < |b| && TripIds(a[i]) == TripIds(b[i])
    ensures a[i] == b[i]
  {
    hide PoolTo;
    assert |a[i]| == |TripIds(a[i])| == |b[i]|;
    forall k | 0 <= k < |a[i]| ensures a[i][k] == b[i][k] {
      assert TripIds(a[i])[k] == TripIds(b[i])[k];
      PoolMember(a, i, a[i][k]);
      PoolMember(b, i, b[i][k]);
    }
  }

  /** Skipping a solution with a known signature loses no plan: it has the same chains as the one seen before. */
  lemma SignatureDecides(sol: VspSolution, other: VspSolution, plan: Plan, p: Params)
    requires Proper(plan, p) && Holds(sol, plan, p) && Holds(other, plan, p)
    ensures Signature(sol) == Signature(other)
      <==> View(SortBlocks(sol.blocks, true)) == View(SortBlocks(other.blocks, true))
    ensures Signature(sol) == Signature(other) ==> multiset(View(sol.blocks)) == multiset(View(other.blocks))
  {
    hide PoolTo, ViewTo, BlockFeasible, SortBlocks, IdRows;
    SortBlocksFacts(sol.blocks, true);
    SortBlocksFacts(other.blocks, true);
    var v, w := View(SortBlocks(sol.blocks, true)), View(SortBlocks(other.blocks, true));
    PoolPermute(View(sol.blocks), v);
    PoolPermute(View(other.blocks), w);
    if Signature(sol) == Signature(other) {
      IdRowsDecide(v, w);
    }
  }

  /** `candidates.sort(key=...)` followed by `candidates[:limit]`. */
  function Shortlist(cands: seq<Candidate>, limit: int): seq<Candidate> {
    var sorted := Items(Sort(KeyCandidates(cands)));
    if limit >= 0 then sorted[..Min(limit, |sorted|)] else sorted[..Max(0, |sorted| + limit)]
  }

  /** The shortlist keeps candidates with the smallest keys, and all of them when they fit. */
  lemma ShortlistFacts(cands: seq<Candidate>, limit: int)
    ensures var r := Shortlist(cands, limit);
      && (limit >= 0 ==> |r| == Min(limit, |cands|))
      && (forall c :: c in r ==> c in cands)
      && (|cands| <= limit ==> forall c :: c in cands ==> c in r)
      && (forall c, d :: c in r && d in cands && d !in r ==> LexLe(c.key, d.key))
  {
    hide Sort, LexLe;
    var sorted := Items(Sort(KeyCandidates(cands)));
    ByKey(cands);
    var r := Shortlist(cands, limit);
    forall c, d | c in r && d in cands && d !in r ensures LexLe(c.key, d.key) {
      var i :| 0 <= i < |r| && r[i] == c;
      var j :| 0 <= j < |sorted| && sorted[j] == d;
      assert r == sorted[..|r|] && sorted[i] == c;
    }
  }

  /** The sorted list holds the same candidates, keys ascending. */
  lemma ByKey(cands: seq<Candidate>)
    ensures var s := Items(Sort(KeyCandidates(cands)));
      && |s| == |cands|
      && (forall c :: c in s <==> c in cands)
      && (forall i, j :: 0 <= i < j < |s| ==> LexLe(s[i].key, s[j].key))
  {
    hide Sort, LexLe;
    var keyed := KeyCandidates(cands);
    var s := Sort(keyed);
    SortKeepsItems(keyed);
    SortSorts(keyed);
    assert Items(keyed) == cands;
    forall i | 0 <= i < |s| ensures s[i].key == s[i].item.key {
      assert s[i] in multiset(keyed);
    }
    forall c ensures c in Items(s) <==> c in cands {
      assert c in multiset(Items(s)) <==> c in multiset(cands);
    }
  }

  lemma PartsSubset(more: seq<Candidate>, cands: seq<Candidate>)
    requires forall c :: c in more ==> c in cands
    ensures Parts(more) <= Parts(cands)
  {
  }

  function KeyCandidates(cands: seq<Candidate>): (r: seq<Keyed<Candidate>>)
    ensures |r| == |cands| && forall i :: 0 <= i < |r| ==> r[i] == Keyed(cands[i].key, cands[i])
  {
    seq(|cands|, i requires 0 <= i < |cands| => Keyed(cands[i].key, cands[i]))
  }

  /** Deep copies of the seed's blocks in (start, id) order. */
  method SeedBlocks(sol: VspSolution) returns (base: seq<Block>)
    ensures Distinct(base) && fresh(Objs(base))
    ensures multiset(View(base)) == multiset(old(View(sol.blocks)))
    ensures old(DistinctBlockIds(sol.blocks)) ==> DistinctBlockIds(base)
  {
    var copies := CopyBlocks(sol.blocks);
    assert DistinctBlockIds(copies) <== old(DistinctBlockIds(sol.blocks));
    base := SortBlocks(copies, true);
    SortBlocksFacts(copies, true);
    if DistinctBlockIds(copies) { DistinctIdsPermute(copies, base); }
  }

  lemma DistinctIdsPermute(bs: seq<Block>, r: seq<Block>)
    requires DistinctBlockIds(bs) && Distinct(r) && Objs(r) == Objs(bs)
    ensures DistinctBlockIds(r)
  {
    forall i, j | 0 <= i < |r| && 0 <= j < |r| && r[i].id == r[j].id ensures i == j {
      assert r[i] in Objs(bs) && r[j] in Objs(bs);
      assert r[i] == r[j];
    }
  }

  /** Renumbers a rewritten list of blocks into a solution. */
  method Finish(blocks: seq<Block>, unassigned: seq<Trip>, ghost plan: Plan, ghost p: Params) returns (vsp: VspSolution)
    requires Distinct(blocks)
    requires Pool(View(blocks)) == Pool(plan) && PlanFeasible(View(blocks), p)
    modifies Objs(blocks)`id
    ensures Objs(vsp.blocks) <= Objs(blocks) && vsp.unassigned == unassigned
    ensures Holds(vsp, plan, p) && |vsp.blocks| == Vehicles(old(View(blocks)))
    ensures multiset(View(vsp.blocks)) == multiset(DropEmpty(old(View(blocks))))
    ensures vsp.blocks == old(Ordered(blocks)) && DistinctBlockIds(vsp.blocks)
    ensures forall i :: 0 <= i < |vsp.blocks| ==> vsp.blocks[i].id == i + 1
    ensures forall b :: b in blocks && b.trips != [] ==> b in vsp.blocks
  {
    ghost var mid := View(blocks);
    var tidy := RenumberBlocks(blocks);
    Tidied(plan, mid, View(tidy), p);
    vsp := VspSolution(tidy, unassigned);
  }

  /** Candidates over the plan that keep its unassigned trips and whose fleet lies in the given range. */
  ghost predicate Gathered(cands: seq<Candidate>, plan: Plan, unassigned: seq<Trip>, least: int, most: int, p: Params)
    reads Parts(cands)`trips
  {
    forall c :: c in cands ==>
      Holds(c.vsp, plan, p) && c.vsp.unassigned == unassigned && least <= |c.vsp.blocks| <= most
  }

  lemma SeedProper(plan: Plan, base: Plan, p: Params)
    requires Proper(plan, p) && multiset(base) == multiset(plan)
    ensures Proper(base, p) && Rearranged(plan, base, p) && |base| == |plan|
  {
    DropEmptyKeeps(plan, p);
    Tidied(plan, plan, base, p);
  }

  // ---- growing a list of candidates ----

  /** The chains and the signature of each candidate so far. */
  datatype Trail = Trail(chains: seq<multiset<Chain>>, signatures: seq<seq<seq<int>>>)

  ghost predicate Tracked(cands: seq<Candidate>, seen: set<seq<seq<int>>>, trail: Trail)
    reads Parts(cands)
  {
    && |trail.chains| == |trail.signatures| == |cands|
    && (forall k :: 0 <= k < |cands| ==>
          multiset(View(cands[k].vsp.blocks)) == trail.chains[k] && Signature(cands[k].vsp) == trail.signatures[k])
    && (forall s :: s in seen ==> s in trail.signatures)
  }

  lemma NoneTracked(plan: Plan, unassigned: seq<Trip>, least: int, most: int, p: Params)
    ensures Gathered([], plan, unassigned, least, most, p) && Tracked([], {}, Trail([], []))
  {
  }

  /** The trail now holds the given chains as well, and nothing else new. */
  ghost predicate Grown(trail: Trail, more: Trail, chains: multiset<Chain>) {
    forall v :: v in more.chains <==> v in trail.chains || v == chains
  }

  /** Nothing leaves the trail. */
  ghost predicate Keeps(trail: Trail, more: Trail) {
    forall v :: v in trail.chains ==> v in more.chains
  }

  lemma SameTrail(trail: Trail, chains: multiset<Chain>)
    requires chains in trail.chains
    ensures Grown(trail, trail, chains)
  {
  }

  lemma LongerTrail(trail: Trail, chains: multiset<Chain>, signature: seq<seq<int>>)
    ensures Grown(trail, Trail(trail.chains + [chains], trail.signatures + [signature]), chains)
  {
  }

  /** Keeps a candidate unless one with its signature, and so with its chains, is there already. */
  method AddCandidate(vsp: VspSolution, key: seq<int>, cands: seq<Candidate>, seen: set<seq<seq<int>>>,
                      ghost trail: Trail, ghost plan: Plan, ghost unassigned: seq<Trip>,
                      ghost least: int, ghost most: int, ghost p: Params)
    returns (more: seq<Candidate>, seen': set<seq<seq<int>>>, ghost trail': Trail)
    requires Proper(plan, p) && Holds(vsp, plan, p) && vsp.unassigned == unassigned && least <= |vsp.blocks| <= most
    requires Gathered(cands, plan, unassigned, least, most, p) && Tracked(cands, seen, trail)
    ensures Gathered(more, plan, unassigned, least, most, p) && Tracked(more, seen', trail')
    ensures Parts(more) <= Parts(cands) + Objs(vsp.blocks)
    ensures more == cands || more == cands + [Candidate(vsp, key)]
    ensures Grown(trail, trail', multiset(View(vsp.blocks)))
  {
    hide Holds, Signature, Proper, ViewTo;
    more, seen', trail' := cands, seen, trail;
    var signature := Signature(vsp);
    if signature !in seen {
      seen' := seen + {signature};
      more := cands + [Candidate(vsp, key)];
      trail' := Trail(trail.chains + [multiset(View(vsp.blocks))], trail.signatures + [signature]);
      LongerTrail(trail, multiset(View(vsp.blocks)), signature);
    } else {
      ghost var k :| 0 <= k < |trail.signatures| && trail.signatures[k] == signature;
      assert cands[k] in cands;
      SignatureDecides(vsp, cands[k].vsp, plan, p);
      SameTrail(trail, trail.chains[k]);
    }
  }

  lemma ViewConcat(a: seq<Block>, b: seq<Block>)
    ensures View(a + b) == View(a) + View(b)
    ensures Objs(a + b) == Objs(a) + Objs(b)
    ensures Distinct(a) && Distinct(b) && Objs(a) !! Objs(b) ==> Distinct(a + b)
  {
    if Distinct(a) && Distinct(b) && Objs(a) !! Objs(b) {
      forall i, j | 0 <= i < |a| && 0 <= j < |b| ensures a[i] != b[j] {
        assert a[i] in Objs(a) && b[j] in Objs(b);
      }
    }
  }
}
