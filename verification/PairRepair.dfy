// Reuniting preferred pairs split over two blocks (`_generate_split_pair_repair_candidates`).
module PairRepair {
  import opened Wrappers
  import opened Domain
  import opened Kernel
  import opened Plans
  import opened Blocks
  import opened Moves
  import opened Candidates

  /** The last trip of the request with the given id. */
  function FindTrip(trips: seq<Trip>, id: int, n: nat): Option<Trip>
    requires n <= |trips|
  {
    if n == 0 then None else if trips[n - 1].id == id then Some(trips[n - 1]) else FindTrip(trips, id, n - 1)
  }

  /** The last of the first n chains that holds a trip with the given id. */
  function FindBlock(plan: Plan, id: int, n: nat): (k: Option<nat>)
    requires n <= |plan|
    ensures k.Some? ==> k.value < n && id in IdsOf(plan[k.value])
  {
    if n == 0 then None else if id in IdsOf(plan[n - 1]) then Some(n - 1) else FindBlock(plan, id, n - 1)
  }

  // ---- what one repair does to the chains of a plan, whatever their order ----

  /** The ids of the pair's trips, the one that starts earlier first. */
  function InOrder(trips: seq<Trip>, pair: (int, int)): Option<(int, int)> {
    var a, b := FindTrip(trips, pair.0, |trips|), FindTrip(trips, pair.1, |trips|);
    if a.None? || b.None? then None
    else if a.value.start <= b.value.start then Some(pair)
    else Some((pair.1, pair.0))
  }

  /** The pair ends chain a and begins chain b, and cutting it out of both leaves only feasible pieces. */
  ghost predicate Repairable(chains: multiset<Chain>, trips: seq<Trip>, pair: (int, int), a: Chain, b: Chain,
                             p: Params) {
    && multiset{a, b} <= chains && |a| >= 2 && b != []
    && InOrder(trips, pair) == Some((a[|a| - 1].id, b[0].id))
    && BlockFeasible(a[..|a| - 1], p) && BlockFeasible([a[|a| - 1], b[0]], p) && BlockFeasible(b[1..], p)
  }

  ghost function RepairOf(chains: multiset<Chain>, a: Chain, b: Chain): multiset<Chain>
    requires |a| >= 2 && b != []
  {
    chains - multiset{a, b} + Pieces(a, b) + Rest(b)
  }

  /** Chain a without its last trip, and the reunited pair. */
  ghost function Pieces(a: Chain, b: Chain): multiset<Chain>
    requires |a| >= 2 && b != []
  {
    multiset{a[..|a| - 1], [a[|a| - 1], b[0]]}
  }

  /** What is left of chain b, if anything. */
  ghost function Rest(b: Chain): multiset<Chain>
    requires b != []
  {
    if |b| == 1 then multiset{} else multiset{b[1..]}
  }

  ghost predicate IsRepair(after: multiset<Chain>, chains: multiset<Chain>, trips: seq<Trip>, pair: (int, int),
                           a: Chain, b: Chain, p: Params) {
    Repairable(chains, trips, pair, a, b, p) && after == RepairOf(chains, a, b)
  }

  /** Chains before and after, by column: what is there, what goes (twice), what was there, what comes (twice). */
  datatype Row = Row(now: multiset<Chain>, gone1: multiset<Chain>, gone2: multiset<Chain>,
                     was: multiset<Chain>, new1: multiset<Chain>, new2: multiset<Chain>)

  ghost predicate Balanced(x: Row) {
    x.now + x.gone1 + x.gone2 == x.was + x.new1 + x.new2
  }

  ghost predicate SumOf(z: Row, x: Row, y: Row) {
    && z.now == x.now + y.now && z.gone1 == x.gone1 + y.gone1 && z.gone2 == x.gone2 + y.gone2
    && z.was == x.was + y.was && z.new1 == x.new1 + y.new1 && z.new2 == x.new2 + y.new2
  }

  lemma AddRows(x: Row, y: Row, z: Row)
    requires Balanced(x) && Balanced(y) && SumOf(z, x, y)
    ensures Balanced(z)
  {
    assert z.now + z.gone1 + z.gone2 == (x.now + x.gone1 + x.gone2) + (y.now + y.gone1 + y.gone2);
    assert z.was + z.new1 + z.new2 == (x.was + x.new1 + x.new2) + (y.was + y.new1 + y.new2);
  }

  /** The first n blocks. */
  ghost function RowTo(plan: Plan, s: nat, d: nat, n: nat): Row
    requires n <= |plan| && s < |plan| && d < |plan| && s != d && |plan[s]| >= 2 && plan[d] != []
  {
    Row(multiset(RepairedTo(plan, s, d, n)), When(s < n, multiset{plan[s]}), When(d < n, multiset{plan[d]}),
        multiset(plan[..n]), When(s < n, Pieces(plan[s], plan[d])), When(d < n, Rest(plan[d])))
  }

  /** Block k alone. */
  ghost function RowAt(plan: Plan, s: nat, d: nat, k: nat): Row
    requires k < |plan| && s < |plan| && d < |plan| && s != d && |plan[s]| >= 2 && plan[d] != []
  {
    Row(multiset(Repaired(plan, s, d, k)), When(k == s, multiset{plan[s]}), When(k == d, multiset{plan[d]}),
        multiset{plan[k]}, When(k == s, Pieces(plan[s], plan[d])), When(k == d, Rest(plan[d])))
  }

  lemma RowStep(plan: Plan, s: nat, d: nat, n: nat)
    requires 0 < n <= |plan| && s < |plan| && d < |plan| && s != d && |plan[s]| >= 2 && plan[d] != []
    ensures SumOf(RowTo(plan, s, d, n), RowTo(plan, s, d, n - 1), RowAt(plan, s, d, n - 1))
  {
    hide When, Repaired, Pieces, Rest;
    assert plan[..n] == plan[..n - 1] + [plan[n - 1]];
    WhenStep(s, n, multiset{plan[s]});
    WhenStep(d, n, multiset{plan[d]});
    WhenStep(s, n, Pieces(plan[s], plan[d]));
    WhenStep(d, n, Rest(plan[d]));
  }

  lemma RowsBalance(plan: Plan, s: nat, d: nat, k: nat)
    requires k < |plan| && s < |plan| && d < |plan| && s != d && |plan[s]| >= 2 && plan[d] != []
    ensures Balanced(RowAt(plan, s, d, k)) && Balanced(RowTo(plan, s, d, 0))
  {
  }

  lemma {:induction false} RepairedChainsTo(plan: Plan, s: nat, d: nat, n: nat)
    requires n <= |plan| && s < |plan| && d < |plan| && s != d && |plan[s]| >= 2 && plan[d] != []
    ensures Balanced(RowTo(plan, s, d, n))
  {
    hide RowTo, RowAt, Balanced;
    RowsBalance(plan, s, d, if n > 0 then n - 1 else 0);
    if n > 0 {
      RepairedChainsTo(plan, s, d, n - 1);
      RowStep(plan, s, d, n);
      AddRows(RowTo(plan, s, d, n - 1), RowAt(plan, s, d, n - 1), RowTo(plan, s, d, n));
    }
  }

  lemma RepairedChains(plan: Plan, s: nat, d: nat)
    requires s < |plan| && d < |plan| && s != d && |plan[s]| >= 2 && plan[d] != []
    ensures multiset{plan[s], plan[d]} <= multiset(plan)
    ensures multiset(RepairedTo(plan, s, d, |plan|)) == RepairOf(multiset(plan), plan[s], plan[d])
  {
    hide RepairedTo, Pieces, Rest;
    PairInPlan(plan, s, d);
    RepairedChainsTo(plan, s, d, |plan|);
    assert plan[..|plan|] == plan;
    TakeOut(multiset(RepairedTo(plan, s, d, |plan|)), multiset(plan), plan[s], plan[d],
            Pieces(plan[s], plan[d]), Rest(plan[d]));
  }

  lemma TakeOut<T>(after: multiset<T>, all: multiset<T>, x: T, y: T, u: multiset<T>, v: multiset<T>)
    requires multiset{x, y} <= all && after + multiset{x} + multiset{y} == all + u + v
    ensures after == all - multiset{x, y} + u + v
  {
    assert all == all - multiset{x, y} + multiset{x} + multiset{y};
    forall t ensures after[t] == (all - multiset{x, y} + u + v)[t] {
      assert (after + multiset{x} + multiset{y})[t] == (all + u + v)[t];
    }
  }

  // ---- finding the two blocks of a pair ----

  /** With distinct trip ids, an id is found in the one chain that holds it. */
  lemma {:induction false} FindBlockIs(plan: Plan, k: nat, id: int, n: nat)
    requires DistinctIds(Pool(plan)) && k < n <= |plan| && id in IdsOf(plan[k])
    ensures FindBlock(plan, id, n) == Some(k)
  {
    if k < n - 1 {
      if id in IdsOf(plan[n - 1]) {
        OneChainOnly(plan, k, n - 1, id);
        assert false;
      }
      FindBlockIs(plan, k, id, n - 1);
    }
  }

  lemma OneChainOnly(plan: Plan, i: nat, j: nat, id: int)
    requires DistinctIds(Pool(plan)) && i < |plan| && j < |plan| && id in IdsOf(plan[i]) && id in IdsOf(plan[j])
    ensures i == j
  {
    if i != j {
      var t :| t in plan[i] && t.id == id;
      var u :| u in plan[j] && u.id == id;
      PoolMember(plan, i, t);
      PoolMember(plan, j, u);
      PoolWithout(plan, i);
      var k := if j < i then j else j - 1;
      assert Without(plan, i)[k] == plan[j];
      assert t == u && t in multiset(plan[i]);
      PoolMember(Without(plan, i), k, t);
      assert false;
    }
  }

  /** What the repair puts in place of block k, as new objects. */
  method Replacement(base: seq<Block>, s: nat, d: nat, k: nat) returns (add: seq<Block>)
    requires DistinctBlockIds(base)
    requires s < |base| && d < |base| && k < |base| && s != d && |base[s].trips| >= 2 && base[d].trips != []
    ensures Distinct(add) && fresh(Objs(add))
    ensures View(add) == Repaired(View(base), s, d, k)
  {
    var source := base[s].trips;
    if base[k].id == base[s].id {
      var prefix := new Block(0, source[..|source| - 1]);
      var reunited := new Block(0, [source[|source| - 1], base[d].trips[0]]);
      add := [prefix, reunited];
    } else if base[k].id == base[d].id {
      if base[d].trips[1..] != [] {
        var rest := new Block(0, base[d].trips[1..]);
        add := [rest];
      } else {
        add := [];
      }
    } else {
      var kept := new Block(base[k].id, base[k].trips);
      add := [kept];
    }
  }

  /** The whole repaired list. */
  method BuildRepair(base: seq<Block>, s: nat, d: nat) returns (blocks: seq<Block>)
    requires Distinct(base) && DistinctBlockIds(base)
    requires s < |base| && d < |base| && s != d && |base[s].trips| >= 2 && base[d].trips != []
    ensures Distinct(blocks) && fresh(Objs(blocks))
    ensures View(blocks) == RepairedTo(old(View(base)), s, d, |base|)
  {
    hide Repaired, ViewTo;
    ghost var plan := View(base);
    blocks := [];
    for k := 0 to |base|
      invariant View(base) == plan
      invariant Distinct(blocks) && fresh(Objs(blocks))
      invariant View(blocks) == RepairedTo(plan, s, d, k)
    {
      ghost var done := View(blocks);
      var add := Replacement(base, s, d, k);
      assert View(base) == plan;
      assert View(blocks) == done;
      assert Objs(blocks) !! Objs(add);
      ViewConcat(blocks, add);
      blocks := blocks + add;
    }
  }

  /** Builds one repair candidate. */
  method RepairPair(base: seq<Block>, s: nat, d: nat, unassigned: seq<Trip>, ghost plan: Plan, ghost p: Params)
    returns (vsp: VspSolution)
    requires Distinct(base) && DistinctBlockIds(base)
    requires Proper(View(base), p) && Rearranged(plan, View(base), p)
    requires s < |base| && d < |base| && s != d && |View(base)[s]| >= 2
    requires BlockFeasible(View(base)[s][..|View(base)[s]| - 1], p)
    requires BlockFeasible([View(base)[s][|View(base)[s]| - 1], View(base)[d][0]], p)
    requires BlockFeasible(View(base)[d][1..], p)
    ensures fresh(Objs(vsp.blocks)) && vsp.unassigned == unassigned
    ensures Holds(vsp, plan, p) && |base| <= |vsp.blocks| <= |base| + 1
    ensures multiset(View(vsp.blocks)) == RepairOf(multiset(View(base)), View(base)[s], View(base)[d])
  {
    hide PoolTo, ViewTo, BlockFeasible, EdgeFeasible, RepairedTo, RepairOf, DropEmptyTo, Ordered;
    ghost var from := View(base);
    ghost var after := RepairedTo(from, s, d, |from|);
    RepairedOk(from, s, d, p);
    RepairedChains(from, s, d);
    DropEmptyKeeps(after, p);
    var blocks := BuildRepair(base, s, d);
    RearrangedTwice(plan, from, after, p);
    vsp := Finish(blocks, unassigned, plan, p);
    assert View(base) == from;
  }

  /** The two blocks whose last and first trip are the pair, if the repair is feasible. */
  method Locate(base: seq<Block>, trips: seq<Trip>, pair: (int, int), p: Params) returns (hit: Option<(nat, nat)>)
    requires Distinct(base) && DistinctBlockIds(base) && DistinctIds(Pool(View(base)))
    ensures hit.Some? ==>
      && hit.value.0 < |base| && hit.value.1 < |base| && hit.value.0 != hit.value.1
      && Repairable(multiset(View(base)), trips, pair, View(base)[hit.value.0], View(base)[hit.value.1], p)
    ensures forall a, b :: Repairable(multiset(View(base)), trips, pair, a, b, p) ==>
      hit.Some? && a == View(base)[hit.value.0] && b == View(base)[hit.value.1]
  {
    hide PoolTo, ViewTo, BlockFeasible, FindTrip, FindBlock, IdsOf;
    hit := None;
    ghost var plan := View(base);
    var order := InOrder(trips, pair);
    if order.Some? {
      var first, second := order.value.0, order.value.1;
      var src, dst := FindBlock(View(base), first, |base|), FindBlock(View(base), second, |base|);
      if src.Some? && dst.Some? && base[src.value].id != base[dst.value].id {
        var source, target := base[src.value].trips, base[dst.value].trips;
        if source != [] && target != [] && source[|source| - 1].id == first && target[0].id == second && |source| >= 2 {
          if BlockFeasible(source[..|source| - 1], p) && BlockFeasible([source[|source| - 1], target[0]], p)
            && BlockFeasible(target[1..], p)
          {
            PairInPlan(plan, src.value, dst.value);
            hit := Some((src.value, dst.value));
          }
        }
      }
    }
    forall a: Chain, b: Chain | Repairable(multiset(plan), trips, pair, a, b, p)
      ensures hit.Some? && a == plan[hit.value.0] && b == plan[hit.value.1]
    {
      var s, d := PlacesOfPair(plan, a, b);
      FindBlockIs(plan, s, a[|a| - 1].id, |plan|);
      FindBlockIs(plan, d, b[0].id, |plan|);
      assert base[s].id != base[d].id;
    }
  }

  ghost predicate OnlyRepairs(trail: Trail, chains: multiset<Chain>, trips: seq<Trip>, pairs: seq<(int, int)>,
                              p: Params) {
    forall v :: v in trail.chains ==>
      exists pair, a, b :: pair in pairs && pair.0 < pair.1 && IsRepair(v, chains, trips, pair, a, b, p)
  }

  /** Every repair of the pair is on the trail. */
  ghost predicate PairTried(trail: Trail, chains: multiset<Chain>, trips: seq<Trip>, pair: (int, int), p: Params) {
    forall a, b :: Repairable(chains, trips, pair, a, b, p) ==>
      exists v :: v in trail.chains && IsRepair(v, chains, trips, pair, a, b, p)
  }

  lemma KeepsPair(trail: Trail, more: Trail, chains: multiset<Chain>, trips: seq<Trip>, pair: (int, int), p: Params)
    requires Keeps(trail, more) && PairTried(trail, chains, trips, pair, p)
    ensures PairTried(more, chains, trips, pair, p)
  {
    hide Repairable, IsRepair;
    forall a, b | Repairable(chains, trips, pair, a, b, p)
      ensures exists v :: v in more.chains && IsRepair(v, chains, trips, pair, a, b, p)
    {
      var v :| v in trail.chains && IsRepair(v, chains, trips, pair, a, b, p);
      assert v in more.chains;
    }
  }

  lemma RepairTried(trail: Trail, more: Trail, plan: Plan, trips: seq<Trip>, pairs: seq<(int, int)>, pair: (int, int),
                    hit: Option<(nat, nat)>, p: Params)
    requires OnlyRepairs(trail, multiset(plan), trips, pairs, p) && pair in pairs && pair.0 < pair.1
    requires hit.Some? ==>
      && hit.value.0 < |plan| && hit.value.1 < |plan|
      && Repairable(multiset(plan), trips, pair, plan[hit.value.0], plan[hit.value.1], p)
      && Grown(trail, more, RepairOf(multiset(plan), plan[hit.value.0], plan[hit.value.1]))
    requires hit.None? ==> more == trail
    requires forall a, b :: Repairable(multiset(plan), trips, pair, a, b, p) ==>
      hit.Some? && a == plan[hit.value.0] && b == plan[hit.value.1]
    ensures OnlyRepairs(more, multiset(plan), trips, pairs, p) && Keeps(trail, more)
    ensures PairTried(more, multiset(plan), trips, pair, p)
  {
    if hit.Some? {
      var a, b := plan[hit.value.0], plan[hit.value.1];
      assert IsRepair(RepairOf(multiset(plan), a, b), multiset(plan), trips, pair, a, b, p);
    }
    hide Repairable, RepairOf, InOrder, IsRepair;
  }

  /** Tries to reunite one preferred pair. */
  method TryRepair(base: seq<Block>, trips: seq<Trip>, pairs: seq<(int, int)>, pair: (int, int), unassigned: seq<Trip>,
                   cands: seq<Candidate>, seen: set<seq<seq<int>>>, ghost trail: Trail, ghost plan: Plan, p: Params)
    returns (more: seq<Candidate>, seen': set<seq<seq<int>>>, ghost trail': Trail)
    requires Distinct(base) && DistinctBlockIds(base) && pair in pairs && pair.0 < pair.1
    requires Proper(View(base), p) && Proper(plan, p) && Rearranged(plan, View(base), p) && |base| == |plan|
    requires Gathered(cands, plan, unassigned, |plan|, |plan| + 1, p) && Tracked(cands, seen, trail)
    requires OnlyRepairs(trail, multiset(View(base)), trips, pairs, p)
    ensures Gathered(more, plan, unassigned, |plan|, |plan| + 1, p) && Tracked(more, seen', trail')
    ensures OnlyRepairs(trail', multiset(View(base)), trips, pairs, p) && Keeps(trail, trail')
    ensures PairTried(trail', multiset(View(base)), trips, pair, p)
    ensures fresh(Parts(more) - Parts(cands)) && |more| <= |cands| + 1
  {
    hide PoolTo, ViewTo, BlockFeasible, EdgeFeasible, Holds, Gathered, Tracked, OnlyRepairs, PairTried, Keeps, Grown,
      RepairOf, InOrder;
    ghost var from := View(base);
    more, seen', trail' := cands, seen, trail;
    var hit := Locate(base, trips, pair, p);
    assert View(base) == from;
    assert old(Gathered(cands, plan, unassigned, |plan|, |plan| + 1, p)) && old(Tracked(cands, seen, trail));
    assert forall b | b in Parts(cands) :: old(allocated(b));
    if hit.Some? {
      var s, d := hit.value.0, hit.value.1;
      var vsp := RepairPair(base, s, d, unassigned, plan, p);
      assert View(base) == from;
      assert multiset(View(vsp.blocks)) == RepairOf(multiset(from), from[s], from[d]);
      assert old(Gathered(cands, plan, unassigned, |plan|, |plan| + 1, p)) && old(Tracked(cands, seen, trail));
      assert forall b | b in Parts(cands) :: old(allocated(b));
      var key := [-(|base[s].trips| - 1), base[s].id, base[d].id];
      more, seen', trail' := AddCandidate(vsp, key, cands, seen, trail, plan, unassigned, |plan|, |plan| + 1, p);
      assert View(base) == from;
    }
    RepairTried(trail, trail', from, trips, pairs, pair, hit, p);
  }

  /** The list holds repairs only, and unless it was cut off at the limit it holds every one of them. */
  ghost predicate Repairs(cands: seq<Candidate>, chains: multiset<Chain>, trips: seq<Trip>, pairs: seq<(int, int)>,
                          limit: int, p: Params)
    reads Parts(cands)`trips
  {
    && (forall c :: c in cands ==> exists pair, a, b ::
          pair in pairs && pair.0 < pair.1 && IsRepair(multiset(View(c.vsp.blocks)), chains, trips, pair, a, b, p))
    && (|cands| < limit ==>
      forall pair, a, b :: pair in pairs && pair.0 < pair.1 && Repairable(chains, trips, pair, a, b, p) ==>
          exists c :: c in cands && IsRepair(multiset(View(c.vsp.blocks)), chains, trips, pair, a, b, p))
  }

  lemma ShortlistRepairs(cands: seq<Candidate>, seen: set<seq<seq<int>>>, trail: Trail, chains: multiset<Chain>,
                         trips: seq<Trip>, pairs: seq<(int, int)>, limit: int, p: Params)
    requires limit > 0 && Tracked(cands, seen, trail) && OnlyRepairs(trail, chains, trips, pairs, p)
    requires |cands| < limit ==> forall pair :: pair in pairs && pair.0 < pair.1 ==>
      PairTried(trail, chains, trips, pair, p)
    ensures Repairs(Shortlist(cands, limit), chains, trips, pairs, limit, p)
  {
    hide Repairable, IsRepair, Shortlist, Signature, ViewTo;
    ShortlistFacts(cands, limit);
    var r := Shortlist(cands, limit);
    forall c | c in r
      ensures exists pair, a, b ::
        pair in pairs && pair.0 < pair.1 && IsRepair(multiset(View(c.vsp.blocks)), chains, trips, pair, a, b, p)
    {
      var k :| 0 <= k < |cands| && cands[k] == c;
      assert trail.chains[k] in trail.chains;
    }
    if |r| < limit {
      forall pair, a, b | pair in pairs && pair.0 < pair.1 && Repairable(chains, trips, pair, a, b, p)
        ensures exists c :: c in r && IsRepair(multiset(View(c.vsp.blocks)), chains, trips, pair, a, b, p)
      {
        assert PairTried(trail, chains, trips, pair, p);
        var v :| v in trail.chains && IsRepair(v, chains, trips, pair, a, b, p);
        var k :| 0 <= k < |trail.chains| && trail.chains[k] == v;
        assert cands[k] in cands;
      }
    }
  }

  /** `_generate_split_pair_repair_candidates`; the preferred pairs come from outside. */
  method GeneratePairRepairs(sol: VspSolution, trips: seq<Trip>, pairs: seq<(int, int)>, raw: RawParams, limit: int)
    returns (cands: seq<Candidate>)
    requires Proper(View(sol.blocks), Extract(raw)) && DistinctBlockIds(sol.blocks)
    ensures Gathered(cands, old(View(sol.blocks)), sol.unassigned, |sol.blocks|, |sol.blocks| + 1, Extract(raw))
    ensures Repairs(cands, multiset(old(View(sol.blocks))), trips, pairs, limit, Extract(raw))
    ensures fresh(Parts(cands)) && |cands| <= Max(limit, 0)
  {
    hide PoolTo, ViewTo, BlockFeasible, EdgeFeasible, Holds, Proper, Rearranged, Repairable, IsRepair, Shortlist,
      Tracked, OnlyRepairs, PairTried;
    if limit <= 0 || trips == [] || pairs == [] {
      NothingToRepair(multiset(View(sol.blocks)), trips, pairs, Extract(raw));
      return [];
    }
    var p := Extract(raw);
    ghost var plan := View(sol.blocks);
    var base := SeedBlocks(sol);
    SeedProper(plan, View(base), p);
    var all, seen;
    ghost var trail;
    all, seen, trail := EnumeratePairs(base, trips, pairs, limit, sol.unassigned, plan, p);
    ShortlistFacts(all, limit);
    ShortlistRepairs(all, seen, trail, multiset(plan), trips, pairs, limit, p);
    cands := Shortlist(all, limit);
    PartsSubset(cands, all);
  }

  /** The loop over the pairs, each looked at once, until the limit is reached. */
  method EnumeratePairs(base: seq<Block>, trips: seq<Trip>, pairs: seq<(int, int)>, limit: int, unassigned: seq<Trip>,
                        ghost plan: Plan, p: Params)
    returns (cands: seq<Candidate>, seen: set<seq<seq<int>>>, ghost trail: Trail)
    requires Distinct(base) && DistinctBlockIds(base) && limit > 0
    requires Proper(View(base), p) && Proper(plan, p) && Rearranged(plan, View(base), p) && |base| == |plan|
    ensures Gathered(cands, plan, unassigned, |plan|, |plan| + 1, p) && Tracked(cands, seen, trail)
    ensures fresh(Parts(cands)) && |cands| <= limit
    ensures OnlyRepairs(trail, multiset(View(base)), trips, pairs, p)
    ensures |cands| < limit ==>
      forall pair :: pair in pairs && pair.0 < pair.1 ==> PairTried(trail, multiset(View(base)), trips, pair, p)
  {
    cands, seen, trail := [], {}, Trail([], []);
    NoneTracked(plan, unassigned, |plan|, |plan| + 1, p);
    ghost var from := View(base);
    NoneRepaired(multiset(from), trips, pairs, p);
    hide PoolTo, ViewTo, BlockFeasible, EdgeFeasible, Holds, Proper, Rearranged, Gathered, Tracked, OnlyRepairs,
      PairTried;
    var looked: set<(int, int)> := {};
    var k := 0;
    while k < |pairs| && |cands| < limit
      invariant k <= |pairs| && |cands| <= limit
      invariant View(base) == from && DistinctBlockIds(base)
      invariant Gathered(cands, plan, unassigned, |plan|, |plan| + 1, p) && Tracked(cands, seen, trail)
      invariant fresh(Parts(cands))
      invariant OnlyRepairs(trail, multiset(from), trips, pairs, p)
      invariant forall l :: 0 <= l < k && pairs[l].0 < pairs[l].1 ==> pairs[l] in looked
      invariant forall pair :: pair in looked ==> PairTried(trail, multiset(from), trips, pair, p)
    {
      var pair := pairs[k];
      if pair.0 < pair.1 && pair !in looked {
        ghost var before := trail;
        cands, seen, trail := TryRepair(base, trips, pairs, pair, unassigned, cands, seen, trail, plan, p);
        forall q | q in looked ensures PairTried(trail, multiset(from), trips, q, p) {
          KeepsPair(before, trail, multiset(from), trips, q, p);
        }
        looked := looked + {pair};
      }
      k := k + 1;
    }
  }

  lemma NoneRepaired(chains: multiset<Chain>, trips: seq<Trip>, pairs: seq<(int, int)>, p: Params)
    ensures OnlyRepairs(Trail([], []), chains, trips, pairs, p)
  {
  }

  lemma NothingToRepair(chains: multiset<Chain>, trips: seq<Trip>, pairs: seq<(int, int)>, p: Params)
    ensures trips == [] || pairs == [] ==> forall pair, a, b :: pair in pairs ==>
      !Repairable(chains, trips, pair, a, b, p)
  {
  }
}
