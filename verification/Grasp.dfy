// Randomised reinsertion of destroyed trips (`_grasp_repair`). Random draws are arbitrary choices.
module Grasp {
  import opened Domain
  import opened Kernel
  import opened Plans
  import opened Sorting
  import opened Blocks
  import opened Moves
  import opened Insertion
  import opened TwoOpt

  /** One place where a trip fits: the block's index, the position in it, and the price. */
  datatype Place = Place(block: nat, pos: nat, cost: real)

  ghost predicate PlaceFits(plan: Plan, place: Place, t: Trip, p: Params) {
    place.block < |plan| && Fits(plan[place.block], place.pos, t, p)
  }

  /** The blocks close enough in time to be tried. */
  predicate Nearby(c: Chain, t: Trip, maxShift: int) {
    c != [] && (t.start - c[|c| - 1].end >= 0 || (-maxShift <= c[0].start - t.end <= maxShift))
  }

  /** Some tried position of the block takes the trip. */
  ghost predicate Takes(c: Chain, t: Trip, p: Params) {
    Nearby(c, t, p.maxShift) && exists q: nat :: q in Sampled(c) && Fits(c, q, t, p)
  }

  /** The place is a cheapest one among those tried in its block. */
  ghost predicate Offered(plan: Plan, place: Place, t: Trip, p: Params, idleRate: real) {
    && PlaceFits(plan, place, t, p)
    && var c := plan[place.block];
      && Nearby(c, t, p.maxShift) && place.pos in Sampled(c) && place.cost == Price(c, place.pos, t, idleRate)
      && forall q: nat :: q in Sampled(c) && Fits(c, q, t, p) ==> q <= |c| && place.cost <= Price(c, q, t, idleRate)
  }

  /** One offer from every one of the first n blocks that takes the trip, and no other. */
  ghost predicate Offers(plan: Plan, places: seq<Place>, t: Trip, p: Params, idleRate: real, n: nat)
    requires n <= |plan|
  {
    && (forall k :: 0 <= k < |places| ==> places[k].block < n && Offered(plan, places[k], t, p, idleRate))
    && (forall i, j :: 0 <= i < j < |places| ==> places[i].block < places[j].block)
    && (forall b :: 0 <= b < n && Takes(plan[b], t, p) ==> exists k :: 0 <= k < |places| && places[k].block == b)
  }

  method CollectPlaces(plan: Plan, t: Trip, p: Params, idleRate: real) returns (places: seq<Place>)
    ensures Offers(plan, places, t, p, idleRate, |plan|)
  {
    hide BlockFeasible, Sampled, Price, InsertAt, Offered, Takes;
    places := [];
    for k := 0 to |plan|
      invariant Offers(plan, places, t, p, idleRate, k)
    {
      if Nearby(plan[k], t, p.maxShift) {
        var ok, pos, cost := FeasibleInsertion(plan[k], t, p, idleRate);
        if ok {
          SampledInRange(plan[k]);
          OfferIs(plan, Place(k, pos, cost), t, p, idleRate);
          OfferMore(plan, places, Place(k, pos, cost), t, p, idleRate);
          places := places + [Place(k, pos, cost)];
        } else {
          TakesNot(plan[k], t, p);
        }
      } else {
        TakesNot(plan[k], t, p);
      }
    }
  }

  lemma TakesNot(c: Chain, t: Trip, p: Params)
    requires !Nearby(c, t, p.maxShift) || (c != [] && forall q: nat :: q in Sampled(c) ==> !Fits(c, q, t, p))
    ensures !Takes(c, t, p)
  {
  }

  lemma OfferIs(plan: Plan, place: Place, t: Trip, p: Params, idleRate: real)
    requires PlaceFits(plan, place, t, p)
    requires var c := plan[place.block];
      && Nearby(c, t, p.maxShift) && place.pos in Sampled(c) && place.cost == Price(c, place.pos, t, idleRate)
      && forall q: nat :: q in Sampled(c) ==> q <= |c| && (Fits(c, q, t, p) ==> place.cost <= Price(c, q, t, idleRate))
    ensures Offered(plan, place, t, p, idleRate)
  {
  }

  lemma OfferMore(plan: Plan, places: seq<Place>, place: Place, t: Trip, p: Params, idleRate: real)
    requires place.block < |plan| && Offers(plan, places, t, p, idleRate, place.block)
    requires Offered(plan, place, t, p, idleRate)
    ensures Offers(plan, places + [place], t, p, idleRate, place.block + 1)
  {
    hide Offered, Takes;
    var more := places + [place];
    forall b | 0 <= b < place.block + 1 && Takes(plan[b], t, p)
      ensures exists k :: 0 <= k < |more| && more[k].block == b
    {
      if b < place.block {
        var k :| 0 <= k < |places| && places[k].block == b;
        assert more[k].block == b;
      } else {
        assert more[|places|].block == b;
      }
    }
  }

  /** A cheapest and a dearest place. */
  method Extremes(places: seq<Place>) returns (lo: nat, hi: nat)
    requires places != []
    ensures lo < |places| && hi < |places|
    ensures forall k :: 0 <= k < |places| ==> places[lo].cost <= places[k].cost <= places[hi].cost
  {
    lo, hi := 0, 0;
    for i := 1 to |places|
      invariant lo < |places| && hi < |places|
      invariant forall k :: 0 <= k < i ==> places[lo].cost <= places[k].cost <= places[hi].cost
    {
      if places[i].cost < places[lo].cost { lo := i; }
      if places[i].cost > places[hi].cost { hi := i; }
    }
  }

  /** The place costs at most the fraction alpha of the way from the cheapest to the dearest. */
  ghost predicate Within(places: seq<Place>, lo: nat, hi: nat, alpha: real, place: Place) {
    && lo < |places| && hi < |places|
    && (forall k :: 0 <= k < |places| ==> places[lo].cost <= places[k].cost <= places[hi].cost)
    && place.cost <= places[lo].cost + alpha * (places[hi].cost - places[lo].cost)
  }

  /** `random.choice` on the restricted candidate list, which is never empty. */
  method Draw(places: seq<Place>, alpha: real) returns (place: Place)
    requires places != [] && alpha >= 0.0
    ensures place in places
    ensures exists lo, hi :: Within(places, lo, hi, alpha, place)
  {
    var lo, hi := Extremes(places);
    var threshold := places[lo].cost + alpha * (places[hi].cost - places[lo].cost);
    assert places[lo].cost <= threshold by {
      ScaleKeepsSign(alpha, places[hi].cost - places[lo].cost);
    }
    var short := Affordable(places, threshold, |places|);
    AffordableHas(places, threshold, |places|, lo);
    var draw :| 0 <= draw < |short|;
    place := short[draw];
    assert place in short;
    assert Within(places, lo, hi, alpha, place);
  }

  lemma ScaleKeepsSign(a: real, x: real)
    requires a >= 0.0 && x >= 0.0
    ensures a * x >= 0.0
  {
  }

  function Affordable(places: seq<Place>, threshold: real, n: nat): (r: seq<Place>)
    requires n <= |places|
    ensures forall x :: x in r ==> x in places && x.cost <= threshold
  {
    if n == 0 then []
    else Affordable(places, threshold, n - 1) + (if places[n - 1].cost <= threshold then [places[n - 1]] else [])
  }

  lemma {:induction false} AffordableHas(places: seq<Place>, threshold: real, n: nat, k: nat)
    requires k < n <= |places| && places[k].cost <= threshold
    ensures places[k] in Affordable(places, threshold, n)
  {
    if k < n - 1 { AffordableHas(places, threshold, n - 1, k); }
  }

  // ---- placing one trip ----

  ghost function Placed(plan: Plan, place: Place, t: Trip): Plan
    requires place.block < |plan| && place.pos <= |plan[place.block]|
  {
    plan[place.block := InsertAt(plan[place.block], place.pos, t)]
  }

  lemma PlacedOk(plan: Plan, place: Place, t: Trip, p: Params)
    requires PlaceFits(plan, place, t, p) && PlanFeasible(plan, p) && NoEmptyChain(plan)
    ensures Pool(Placed(plan, place, t)) == Pool(plan) + multiset{t}
    ensures PlanFeasible(Placed(plan, place, t), p) && NoEmptyChain(Placed(plan, place, t))
  {
    hide BlockFeasible;
    var c := plan[place.block];
    var d := InsertAt(c, place.pos, t);
    PoolUpdate(plan, place.block, d);
    assert c == c[..place.pos] + c[place.pos..];
    assert multiset(d) == multiset(c) + multiset{t};
    SwapOut(Pool(plan), multiset(c), multiset{t});
  }

  lemma SwapOut<T>(pool: multiset<T>, c: multiset<T>, x: multiset<T>)
    requires c <= pool
    ensures pool - c + (c + x) == pool + x
  {
  }

  ghost predicate Rebuilt(blocks: seq<Block>, base: Plan, left: Chain, all: Chain, p: Params)
    reads Objs(blocks)`trips
  {
    && Distinct(blocks)
    && Pool(View(blocks)) + multiset(left) == Pool(base) + multiset(all)
    && PlanFeasible(View(blocks), p) && NoEmptyChain(View(blocks))
    && |base| <= |blocks| <= |base| + |all| - |left|
  }

  /** Puts one trip into a drawn place, or into a block of its own. */
  method PlaceTrip(blocks: seq<Block>, t: Trip, rest: Chain, p: Params, idleRate: real, alpha: real, ghost base: Plan,
                   ghost all: Chain)
    returns (more: seq<Block>, ghost offers: seq<Place>)
    requires alpha >= 0.0
    requires Rebuilt(blocks, base, [t] + rest, all, p)
    modifies Objs(blocks)`trips
    ensures Rebuilt(more, base, rest, all, p)
    ensures old(Offers(View(blocks), offers, t, p, idleRate, |blocks|))
    ensures Placement(old(View(blocks)), View(more), offers, t, p, alpha)
    ensures fresh(Objs(more) - Objs(blocks))
    ensures offers != [] ==> more == blocks
    ensures offers == [] ==> |more| == |blocks| + 1 && more[..|blocks|] == blocks && more[|blocks|].id == |blocks| + 1
  {
    hide BlockFeasible, PoolTo, ViewTo, BlockIdsTo, Sampled, Price, Offers, Within, InsertAt, Takes;
    ghost var plan := View(blocks);
    var places := CollectPlaces(View(blocks), t, p, idleRate);
    offers := places;
    assert View(blocks) == plan;
    assert multiset([t] + rest) == multiset{t} + multiset(rest);
    if places == [] {
      var own := new Block(|blocks| + 1, [t]);
      more := blocks + [own];
      NewBlockOk(plan, t, p);
      assert View(more) == plan + [[t]];
      assert Pool(View(more)) + multiset(rest) == Pool(plan) + (multiset{t} + multiset(rest));
    } else {
      OffersFit(plan, places, t, p, idleRate);
      var place := Draw(places, alpha);
      PlacedOk(plan, place, t, p);
      blocks[place.block].trips := InsertAt(blocks[place.block].trips, place.pos, t);
      more := blocks;
      assert View(more) == Placed(plan, place, t);
      assert Pool(View(more)) + multiset(rest) == Pool(plan) + (multiset{t} + multiset(rest));
    }
  }

  /** The given ids, and then each further block's position from 1. */
  ghost function NumberedOn(ids: seq<int>, n: nat): (r: seq<int>)
    requires |ids| <= n
    ensures |r| == n && forall i :: 0 <= i < n ==> r[i] == if i < |ids| then ids[i] else i + 1
  {
    seq(n, i requires 0 <= i < n => if i < |ids| then ids[i] else i + 1)
  }

  lemma IdTaken(r: seq<Block>, ids: seq<int>, i: nat)
    requires |ids| <= |r| && BlockIds(r) == NumberedOn(ids, |r|) && i < |ids| && |ids| < ids[i] <= |r|
    ensures !DistinctBlockIds(r)
  {
    assert r[i].id == BlockIds(r)[i] && r[ids[i] - 1].id == BlockIds(r)[ids[i] - 1];
  }

  /** The blocks opened by a repair get ids of their own exactly when no remaining block carries one of them. */
  lemma NewIdsExact(r: seq<Block>, ids: seq<int>)
    requires |ids| <= |r| && BlockIds(r) == NumberedOn(ids, |r|)
    ensures DistinctBlockIds(r) <==>
      && (forall i, j :: 0 <= i < j < |ids| ==> ids[i] != ids[j])
      && (forall i :: 0 <= i < |ids| ==> !(|ids| < ids[i] <= |r|))
  {
    forall i | 0 <= i < |r| ensures r[i].id == if i < |ids| then ids[i] else i + 1 {
      assert r[i].id == BlockIds(r)[i];
    }
    if DistinctBlockIds(r) {
      forall i, j | 0 <= i < j < |ids| ensures ids[i] != ids[j] {
        assert r[i].id == ids[i] && r[j].id == ids[j];
      }
      forall i | 0 <= i < |ids| ensures !(|ids| < ids[i] <= |r|) {
        if |ids| < ids[i] <= |r| { IdTaken(r, ids, i); }
      }
    }
  }

  /** Blocks 1 and 3 remain and neither takes the trip: the block opened for it is a second block 3. */
  method IdsCollide() returns (r: seq<Block>)
    ensures |r| == 3 && r[1].id == r[2].id == 3
  {
    hide Offers, Placement, STANDARD, PoolTo, ViewTo, BlockIdsTo, BlockFeasible;
    var one := new Block(1, [LATE.(id := 1)]);
    var three := new Block(3, [LATE.(id := 2)]);
    var blocks, t := [one, three], LATE.(id := 3);
    ghost var plan := View(blocks);
    Singles(plan, STANDARD);
    assert [t] + [] == [t];
    assert Rebuilt(blocks, plan, [t] + [], [t], STANDARD);
    hide Rebuilt;
    ghost var offers;
    r, offers := PlaceTrip(blocks, t, [], STANDARD, 0.25, 0.3, plan, [t]);
    NoPlace(plan, t, offers, 0.25);
    assert r[1] == r[..2][1] == three;
  }

  lemma Singles(plan: Plan, p: Params)
    requires forall k :: 0 <= k < |plan| ==> |plan[k]| == 1
    ensures PlanFeasible(plan, p) && NoEmptyChain(plan)
  {
  }

  /** A trip fits no block that only runs a trip of the same times. */
  lemma NoPlace(plan: Plan, t: Trip, offers: seq<Place>, idleRate: real)
    requires forall k :: 0 <= k < |plan| ==> |plan[k]| == 1 && plan[k][0].start == t.start < t.end == plan[k][0].end
    requires Offers(plan, offers, t, STANDARD, idleRate, |plan|)
    ensures offers == []
  {
    hide Sampled, Price, Takes, Fits;
    if offers != [] {
      SameTimes(plan[offers[0].block], t, offers[0].pos);
    }
  }

  lemma SameTimes(c: Chain, t: Trip, pos: int)
    requires |c| == 1 && c[0].start == t.start < t.end == c[0].end
    ensures !Fits(c, pos, t, STANDARD)
  {
    if 0 <= pos <= 1 {
      var d := InsertAt(c, pos, t);
      assert |d| == 2 && !EdgeFeasible(d[0], d[1], STANDARD.conn);
    }
  }

  lemma OffersFit(plan: Plan, places: seq<Place>, t: Trip, p: Params, idleRate: real)
    requires Offers(plan, places, t, p, idleRate, |plan|)
    ensures forall place :: place in places ==> PlaceFits(plan, place, t, p)
  {
    hide Takes, Sampled, Price;
  }

  /** The trip goes to an offer within the price limit, or, without offers, to a block of its own. */
  ghost predicate Placement(before: Plan, after: Plan, offers: seq<Place>, t: Trip, p: Params, alpha: real) {
    if offers == [] then after == before + [[t]]
    else exists place, lo, hi ::
      (&& place in offers && Within(offers, lo, hi, alpha, place)
       && PlaceFits(before, place, t, p) && after == Placed(before, place, t))
  }

  lemma NewBlockOk(plan: Plan, t: Trip, p: Params)
    requires PlanFeasible(plan, p) && NoEmptyChain(plan)
    ensures Pool(plan + [[t]]) == Pool(plan) + multiset{t}
    ensures PlanFeasible(plan + [[t]], p) && NoEmptyChain(plan + [[t]])
  {
    PoolConcat(plan, [[t]]);
    PoolSingle([t]);
    assert BlockFeasible([t], p);
  }

  // ---- the whole repair ----

  function KeyStarts(c: Chain): (r: seq<Keyed<Trip>>)
    ensures |r| == |c| && forall i :: 0 <= i < |c| ==> r[i] == Keyed([c[i].start], c[i])
  {
    seq(|c|, i requires 0 <= i < |c| => Keyed([c[i].start], c[i]))
  }

  lemma SortedStarts(c: Chain)
    ensures multiset(Items(Sort(KeyStarts(c)))) == multiset(c)
  {
    SortKeepsItems(KeyStarts(c));
    assert Items(KeyStarts(c)) == c;
  }

  /** With distinct ids, filtering out the placed trip's id removes just that trip. */
  lemma {:induction false} RemoveHeadId(c: Chain)
    requires c != [] && forall i :: 1 <= i < |c| ==> c[i].id != c[0].id
    ensures RemoveIds(c, {c[0].id}) == c[1..]
  {
    RemoveNothing(c[1..], c[0].id);
  }

  lemma {:induction false} RemoveNothing(c: Chain, id: int)
    requires forall i :: 0 <= i < |c| ==> c[i].id != id
    ensures RemoveIds(c, {id}) == c
  {
    if c != [] { RemoveNothing(c[1..], id); }
  }

  lemma PermutedIdsDistinct(c: Chain)
    requires DistinctIds(multiset(c))
    ensures forall i, j :: 0 <= i < j < |c| ==> c[i].id != c[j].id
  {
    forall i, j | 0 <= i < j < |c| ensures c[i].id != c[j].id {
      assert c[i] in multiset(c) && c[j] in multiset(c);
      if c[i] == c[j] {
        Repeated(c, i, j);
        assert false;
      }
    }
  }

  /** `_grasp_repair`: every destroyed trip is placed exactly once, in feasible blocks. */
  method GraspRepair(base: seq<Block>, destroyed: Chain, raw: RawParams, idleRate: real, alpha: real, searches: nat)
    returns (r: seq<Block>)
    requires alpha >= 0.0
    requires PlanFeasible(View(base), Extract(raw)) && NoEmptyChain(View(base)) && DistinctIds(multiset(destroyed))
    ensures Distinct(r) && fresh(Objs(r))
    ensures Pool(View(r)) == Pool(old(View(base))) + multiset(destroyed)
    ensures PlanFeasible(View(r), Extract(raw)) && NoEmptyChain(View(r))
    ensures |base| <= |r| <= |base| + |destroyed|
    ensures BlockIds(r) == NumberedOn(old(BlockIds(base)), |r|)
  {
    hide BlockFeasible, PoolTo, ViewTo, BlockIdsTo, NumberedOn;
    var p := Extract(raw);
    ghost var plan, ids := View(base), BlockIds(base);
    r := CopyBlocks(base);
    assert BlockIds(r) == ids == NumberedOn(ids, |r|);
    r := PlaceAll(r, destroyed, p, idleRate, alpha, plan, ids);
    ghost var final := View(r);
    for k := 0 to searches
      invariant View(r) == final && Distinct(r) && fresh(Objs(r))
      invariant BlockIds(r) == NumberedOn(ids, |r|)
    {
      var passes;
      r, passes := LocalSearch2Opt(r, p);
    }
  }

  lemma NumberedMore(before: seq<Block>, r: seq<Block>, ids: seq<int>)
    requires |before| >= |ids| && BlockIds(before) == NumberedOn(ids, |before|)
    requires r == before || (|r| == |before| + 1 && r[..|before|] == before && r[|before|].id == |before| + 1)
    ensures BlockIds(r) == NumberedOn(ids, |r|)
  {
    forall i | 0 <= i < |r| ensures BlockIds(r)[i] == NumberedOn(ids, |r|)[i] {
      if i < |before| { assert r[i] == before[i] && BlockIds(before)[i] == before[i].id; }
    }
  }

  method PlaceNext(blocks: seq<Block>, t: Trip, rest: Chain, p: Params, idleRate: real, alpha: real, ghost base: Plan,
                   ghost all: Chain, ghost ids: seq<int>)
    returns (more: seq<Block>)
    requires alpha >= 0.0
    requires Rebuilt(blocks, base, [t] + rest, all, p)
    requires |blocks| >= |ids| && BlockIds(blocks) == NumberedOn(ids, |blocks|)
    modifies Objs(blocks)`trips
    ensures Rebuilt(more, base, rest, all, p) && |more| >= |ids| && BlockIds(more) == NumberedOn(ids, |more|)
    ensures fresh(Objs(more) - Objs(blocks))
  {
    hide Rebuilt, Placement, BlockIdsTo, NumberedOn, Offers, ViewTo;
    ghost var offers;
    more, offers := PlaceTrip(blocks, t, rest, p, idleRate, alpha, base, all);
    assert BlockIds(blocks) == old(BlockIds(blocks));
    NumberedMore(blocks, more, ids);
  }

  /** The placement loop, earliest trip first. */
  method PlaceAll(copies: seq<Block>, destroyed: Chain, p: Params, idleRate: real, alpha: real, ghost plan: Plan,
                  ghost ids: seq<int>)
    returns (r: seq<Block>)
    requires alpha >= 0.0 && Distinct(copies) && View(copies) == plan
    requires BlockIds(copies) == ids
    requires PlanFeasible(plan, p) && NoEmptyChain(plan) && DistinctIds(multiset(destroyed))
    modifies Objs(copies)`trips
    ensures Rebuilt(r, plan, [], destroyed, p)
    ensures fresh(Objs(r) - Objs(copies))
    ensures |r| >= |ids| && BlockIds(r) == NumberedOn(ids, |r|)
  {
    var left := Items(Sort(KeyStarts(destroyed)));
    r := copies;
    hide BlockFeasible, PoolTo, ViewTo, BlockIdsTo, Sort;
    SortedStarts(destroyed);
    assert |left| == |multiset(left)| && |destroyed| == |multiset(destroyed)|;
    PermutedIdsDistinct(left);
    assert Rebuilt(r, plan, left, destroyed, p);
    assert BlockIds(r) == NumberedOn(ids, |r|);
    hide Rebuilt, Placement, BlockIds, BlockIdsTo, NumberedOn, Offers;
    while left != []
      invariant |r| >= |ids| && BlockIds(r) == NumberedOn(ids, |r|)
      invariant Rebuilt(r, plan, left, destroyed, p) && fresh(Objs(r) - Objs(copies))
      invariant forall i, j :: 0 <= i < j < |left| ==> left[i].id != left[j].id
      decreases |left|
    {
      var t := left[0];
      RemoveHeadId(left);
      var rest := RemoveIds(left, {t.id});
      assert left == [t] + rest;
      r := PlaceNext(r, t, rest, p, idleRate, alpha, plan, destroyed, ids);
      left := rest;
    }
  }
}
