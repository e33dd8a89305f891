// Large neighbourhood search with annealed acceptance (`_enhanced_large_neighborhood_search`).
// Random draws, costs and the crew solver are arbitrary.
module Lns {
  import opened Domain
  import opened Kernel
  import opened Plans
  import opened Blocks
  import opened Moves
  import opened Candidates
  import opened Grasp

  /** What the search reads of a crew solution: its labour-rule violations and the blocks behind problem duties. */
  datatype CrewSolution = CrewSolution(violations: int, problemBlocks: seq<int>)

  /** The crew solver and the evaluator live elsewhere: any answer may come back. */
  method SolveCrew() returns (crew: CrewSolution) {
    crew := *;
  }

  method Judge() returns (verdict: bool) {
    verdict := *;
  }

  method ChooseBlocks() returns (ids: set<int>) {
    ids := *;
  }

  /** Which blocks the drawn ids select. */
  ghost function Doomed(bs: seq<Block>, ids: set<int>): (r: seq<bool>)
    reads Objs(bs)
    ensures |r| == |bs| && forall i :: 0 <= i < |bs| ==> (r[i] <==> bs[i].id in ids)
  {
    seq(|bs|, i requires 0 <= i < |bs| reads Objs(bs) => bs[i].id in ids)
  }

  /** Chains among the first n that stay. */
  ghost function Survivors(plan: Plan, doomed: seq<bool>, n: nat): Plan
    requires n <= |plan| == |doomed|
  {
    if n == 0 then []
    else if doomed[n - 1] then Survivors(plan, doomed, n - 1)
    else Survivors(plan, doomed, n - 1) + [plan[n - 1]]
  }

  /** Trips of the first n chains that go. */
  ghost function Casualties(plan: Plan, doomed: seq<bool>, n: nat): Chain
    requires n <= |plan| == |doomed|
  {
    if n == 0 then []
    else if doomed[n - 1] then Casualties(plan, doomed, n - 1) + plan[n - 1]
    else Casualties(plan, doomed, n - 1)
  }

  /** Every trip either stays or goes. */
  lemma {:induction false} StayOrGo(plan: Plan, doomed: seq<bool>, n: nat)
    requires n <= |plan| == |doomed|
    ensures Pool(Survivors(plan, doomed, n)) + multiset(Casualties(plan, doomed, n)) == PoolTo(plan, n)
  {
    if n == 0 { return; }
    StayOrGo(plan, doomed, n - 1);
    var kept, gone, c := Survivors(plan, doomed, n - 1), Casualties(plan, doomed, n - 1), plan[n - 1];
    assert PoolTo(plan, n) == PoolTo(plan, n - 1) + multiset(c);
    hide PoolTo;
    Shift(Pool(kept), multiset(gone), multiset(c));
    if doomed[n - 1] {
      assert Casualties(plan, doomed, n) == gone + c;
    } else {
      PoolConcat(kept, [c]);
      PoolSingle(c);
    }
  }

  lemma {:induction false} SurvivorsFeasible(plan: Plan, doomed: seq<bool>, n: nat, p: Params)
    requires n <= |plan| == |doomed| && PlanFeasible(plan, p) && NoEmptyChain(plan)
    ensures PlanFeasible(Survivors(plan, doomed, n), p) && NoEmptyChain(Survivors(plan, doomed, n))
  {
    hide BlockFeasible;
    if n > 0 { SurvivorsFeasible(plan, doomed, n - 1, p); }
  }

  lemma Shift<T>(a: multiset<T>, b: multiset<T>, c: multiset<T>)
    ensures a + (b + c) == (a + b) + c
    ensures (a + c) + b == (a + b) + c
  {
  }

  /** Copies of the blocks that stay, and the trips of those that go. */
  method Destroy(blocks: seq<Block>, ids: set<int>) returns (remaining: seq<Block>, destroyed: Chain)
    ensures Distinct(remaining) && fresh(Objs(remaining))
    ensures View(remaining) == Survivors(old(View(blocks)), old(Doomed(blocks, ids)), |blocks|)
    ensures destroyed == Casualties(old(View(blocks)), old(Doomed(blocks, ids)), |blocks|)
  {
    hide ViewTo;
    remaining, destroyed := [], [];
    for k := 0 to |blocks|
      invariant Distinct(remaining) && fresh(Objs(remaining))
      invariant View(remaining) == Survivors(old(View(blocks)), old(Doomed(blocks, ids)), k)
      invariant destroyed == Casualties(old(View(blocks)), old(Doomed(blocks, ids)), k)
    {
      if blocks[k].id in ids {
        destroyed := destroyed + blocks[k].trips;
      } else {
        ghost var kept := View(remaining);
        var copy := new Block(blocks[k].id, blocks[k].trips);
        assert View(remaining) == kept;
        ViewConcat(remaining, [copy]);
        remaining := remaining + [copy];
      }
    }
  }

  /** One destroy-and-repair step gives another solution over the same trips. */
  method Neighbour(best: VspSolution, raw: RawParams, idleRate: real, ghost plan: Plan) returns (cand: VspSolution)
    requires Proper(plan, Extract(raw)) && Holds(best, plan, Extract(raw))
    ensures Holds(cand, plan, Extract(raw)) && cand.unassigned == [] && fresh(Objs(cand.blocks))
  {
    hide BlockFeasible, PoolTo, ViewTo;
    ghost var p := Extract(raw);
    ghost var now := View(best.blocks);
    var ids := ChooseBlocks();
    assert View(best.blocks) == now;
    StayOrGo(now, Doomed(best.blocks, ids), |now|);
    SurvivorsFeasible(now, Doomed(best.blocks, ids), |now|, p);
    var remaining, destroyed := Destroy(best.blocks, ids);
    PartDistinct(Pool(View(remaining)), multiset(destroyed), Pool(plan));
    ghost var from := View(remaining);
    var repaired := GraspRepair(remaining, destroyed, raw, idleRate, 0.3, 5);
    cand := VspSolution(repaired, []);
  }

  lemma PartDistinct(a: multiset<Trip>, b: multiset<Trip>, whole: multiset<Trip>)
    requires a + b == whole && DistinctIds(whole)
    ensures DistinctIds(b)
  {
    forall t | t in b ensures b[t] == 1 && t in whole {
      assert whole[t] == a[t] + b[t];
    }
  }

  /** Every accepted step keeps the trips and feasibility and raises neither the fleet nor the violations. */
  method Search(start: VspSolution, startCrew: CrewSolution, raw: RawParams, idleRate: real, iterations: nat)
    returns (best: VspSolution, bestCrew: CrewSolution, accepted: nat)
    requires Distinct(start.blocks) && Proper(View(start.blocks), Extract(raw))
    ensures Holds(best, old(View(start.blocks)), Extract(raw)) && fresh(Objs(best.blocks))
    ensures |best.blocks| <= |start.blocks|
    ensures bestCrew.violations <= startCrew.violations
    ensures best.unassigned == if accepted == 0 then start.unassigned else []
    ensures accepted == 0 ==> View(best.blocks) == old(View(start.blocks)) && bestCrew == startCrew
    ensures accepted <= iterations
  {
    hide BlockFeasible, PoolTo, ViewTo;
    ghost var p := Extract(raw);
    ghost var plan := View(start.blocks);
    var copies := CopyBlocks(start.blocks);
    best, bestCrew, accepted := VspSolution(copies, start.unassigned), startCrew, 0;
    var k := 0;
    var stop := false;
    while k < iterations && !stop
      invariant k <= iterations && accepted <= k
      invariant Holds(best, plan, p) && fresh(Objs(best.blocks))
      invariant |best.blocks| <= |start.blocks| && bestCrew.violations <= startCrew.violations
      invariant best.unassigned == if accepted == 0 then start.unassigned else []
      invariant accepted == 0 ==> View(best.blocks) == plan && bestCrew == startCrew
      decreases iterations - k
    {
      k := k + 1;
      best, bestCrew, accepted := Step(best, bestCrew, accepted, raw, idleRate, plan);
      stop := Judge();  // the temperature cut-off
    }
  }

  method Step(best: VspSolution, bestCrew: CrewSolution, accepted: nat, raw: RawParams, idleRate: real,
              ghost plan: Plan)
    returns (best': VspSolution, bestCrew': CrewSolution, accepted': nat)
    requires Proper(plan, Extract(raw)) && Holds(best, plan, Extract(raw))
    ensures Holds(best', plan, Extract(raw)) && fresh(Objs(best'.blocks) - Objs(best.blocks))
    ensures |best'.blocks| <= |best.blocks| && bestCrew'.violations <= bestCrew.violations
    ensures (&& accepted' == accepted && best' == best && bestCrew' == bestCrew
             && View(best'.blocks) == old(View(best.blocks)))
         || (accepted' == accepted + 1 && best'.unassigned == [])
  {
    hide BlockFeasible, PoolTo, ViewTo;
    best', bestCrew', accepted' := best, bestCrew, accepted;
    ghost var before := View(best.blocks);
    var cand := Neighbour(best, raw, idleRate, plan);
    assert View(best.blocks) == before;
    if |cand.blocks| > |best.blocks| {
      return;
    }
    var tooDear := Judge();  // the fleet cost alone exceeds the best total by a tenth
    assert View(best.blocks) == before;
    if tooDear {
      return;
    }
    var crew := SolveCrew();
    assert View(best.blocks) == before;
    if crew.violations > bestCrew.violations {
      return;
    }
    var accept := Judge();  // cheaper, or drawn by the annealing test
    assert View(best.blocks) == before;
    if accept {
      best', bestCrew', accepted' := cand, crew, accepted + 1;
    }
  }
}
