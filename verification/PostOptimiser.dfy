// The whole post-optimisation (`joint_duty_vehicle_swap`): merge, swap, candidate generation, LNS,
// selection and crew feedback. Crew solver, evaluator and random draws may answer anything.
module PostOptimiser {
  import opened Wrappers
  import opened Domain
  import opened Kernel
  import opened Plans
  import opened Blocks
  import opened Moves
  import opened Candidates
  import opened TailRelocation
  import opened PairRepair
  import opened Selection
  import opened SwapPhase
  import opened Lns
  import Merge
  import Feedback

  datatype Options = Options(
    fragmentation: bool, tailLimit: int, maxTail: int,
    pairRepair: bool,
    lns: bool, lnsIterations: nat,
    integrity: bool,
    maxUnpaidBreak: int,
    idleRate: real)

  /** The incumbent solution with its crew and its figures. */
  datatype Incumbent = Incumbent(vsp: VspSolution, crew: CrewSolution, metrics: Metrics)

  predicate Measured(best: Incumbent) {
    && best.metrics.unassigned == |best.vsp.unassigned|
    && best.metrics.vehicles == |best.vsp.blocks|
    && best.metrics.violations == best.crew.violations
  }

  /** Only three figures are determined by what is modelled; the crew-dependent ones are arbitrary. */
  method Measure(crew: CrewSolution, vsp: VspSolution) returns (m: Metrics)
    ensures Measured(Incumbent(vsp, crew, m))
  {
    m := *;
    m := m.(unassigned := |vsp.unassigned|, vehicles := |vsp.blocks|, violations := crew.violations);
  }

  // ---- phases 1 and 2 ----

  /** Merge and swap on copies; the result is the input itself when nothing changed. */
  method MergeAndSwap(vsp: VspSolution, raw: RawParams, maxUnpaidBreak: int) returns (base: VspSolution)
    requires Distinct(vsp.blocks) && DistinctBlockIds(vsp.blocks) && Proper(View(vsp.blocks), Extract(raw))
    ensures Holds(base, old(View(vsp.blocks)), Extract(raw)) && DistinctBlockIds(base.blocks)
    ensures base == vsp || fresh(Objs(base.blocks))
    ensures |base.blocks| <= |vsp.blocks| && base.unassigned == vsp.unassigned
  {
    hide BlockFeasible, PoolTo, ViewTo, DropEmptyTo, Merge.NoMergeLeft, SortPlan;
    ghost var p := Extract(raw);
    ghost var plan := View(vsp.blocks);
    var merged, merges := Merge.TryMergeBlocks(vsp, raw);
    assert View(vsp.blocks) == plan;
    DropEmptyKeeps(plan, p);
    ghost var mid := View(merged.blocks);
    var swapped, swaps := Swap(merged, raw, maxUnpaidBreak);
    assert View(vsp.blocks) == plan;
    assert View(merged.blocks) == mid;
    if swaps > 0 {
      base := swapped;
      RearrangedTwice(plan, mid, View(swapped.blocks), p);
    } else {
      base := merged;
    }
  }

  method Swap(merged: VspSolution, raw: RawParams, maxUnpaidBreak: int) returns (swapped: VspSolution, swaps: nat)
    requires Proper(View(merged.blocks), Extract(raw))
    ensures Holds(swapped, old(View(merged.blocks)), Extract(raw)) && fresh(Objs(swapped.blocks))
    ensures DistinctBlockIds(swapped.blocks)
    ensures |swapped.blocks| <= |merged.blocks| && swapped.unassigned == merged.unassigned
  {
    hide BlockFeasible, PoolTo, ViewTo, DropEmptyTo, Ordered;
    var p := Extract(raw);
    ghost var plan := View(merged.blocks);
    var copies := CopyBlocks(merged.blocks);
    var sorted := SortBlocks(copies, false);
    SortBlocksFacts(copies, false);
    SeedProper(plan, View(sorted), p);
    assert |sorted| == |View(sorted)|;
    var blocks;
    ghost var passes;
    blocks, swaps, passes := SwapPasses(sorted, p, maxUnpaidBreak);
    ghost var after := View(blocks);
    VehiclesAtMost(after);
    swapped := Finish(blocks, merged.unassigned, plan, p);
  }

  lemma VehiclesAtMost(plan: Plan)
    ensures Vehicles(plan) <= |plan|
  {
    VehiclesCount(plan);
  }

  // ---- candidate lists ----

  /** What the generators start from: the input's chains, those merged and swapped, and the settings that matter. */
  datatype Sources = Sources(plan: Plan, base: Plan, trips: seq<Trip>, pairs: seq<(int, int)>, opts: Options, p: Params)

  ghost predicate FromTail(chains: multiset<Chain>, seed: Plan, src: Sources) {
    exists a, b, size :: IsRelocation(chains, multiset(seed), a, b, size, src.opts.maxTail, src.p)
  }

  ghost predicate FromPair(chains: multiset<Chain>, seed: Plan, src: Sources) {
    exists pair, a, b :: pair in src.pairs && pair.0 < pair.1 &&
      IsRepair(chains, multiset(seed), src.trips, pair, a, b, src.p)
  }

  /** One of the generators that are switched on makes these chains. */
  ghost predicate Sourced(chains: multiset<Chain>, src: Sources) {
    || chains == multiset(src.base)
    || (src.opts.fragmentation && (FromTail(chains, src.plan, src) || FromTail(chains, src.base, src)))
    || (src.opts.pairRepair && (FromPair(chains, src.plan, src) || FromPair(chains, src.base, src)))
    || (src.opts.lns && |src.plan| > 2 && |chains| <= |src.plan|)
  }

  /** The candidates run the plan's trips feasibly, and each comes out of a generator. */
  ghost predicate AllSourced(cands: seq<Candidate>, src: Sources)
    reads Parts(cands)`trips
  {
    forall c :: c in cands ==> Holds(c.vsp, src.plan, src.p) && Sourced(multiset(View(c.vsp.blocks)), src)
  }

  /** The solution keeps the given list of unassigned trips, or has lost it. */
  ghost predicate KeepsList(sol: VspSolution, unassigned: seq<Trip>) {
    sol.unassigned == unassigned || sol.unassigned == []
  }

  ghost predicate ListsKept(cands: seq<Candidate>, unassigned: seq<Trip>) {
    forall c :: c in cands ==> KeepsList(c.vsp, unassigned)
  }

  /** Tail candidates over one of the two seeds come out of a generator. */
  lemma TailsSourced(cands: seq<Candidate>, from: Plan, unassigned: seq<Trip>, limit: int, src: Sources)
    requires Gathered(cands, from, unassigned, |from|, |from|, src.p) && Rearranged(src.plan, from, src.p)
    requires Relocations(cands, multiset(from), limit, src.opts.maxTail, src.p) && src.opts.fragmentation
    requires from == src.plan || from == src.base
    ensures AllSourced(cands, src)
  {
    hide BlockFeasible, PoolTo, ViewTo, IsRelocation;
    forall c | c in cands ensures FromTail(multiset(View(c.vsp.blocks)), from, src) {}
  }

  lemma PairsSourced(cands: seq<Candidate>, from: Plan, unassigned: seq<Trip>, limit: int, src: Sources)
    requires Gathered(cands, from, unassigned, |from|, |from| + 1, src.p) && Rearranged(src.plan, from, src.p)
    requires Repairs(cands, multiset(from), src.trips, src.pairs, limit, src.p) && src.opts.pairRepair
    requires from == src.plan || from == src.base
    ensures AllSourced(cands, src)
  {
    hide BlockFeasible, PoolTo, ViewTo, IsRepair;
    forall c | c in cands ensures FromPair(multiset(View(c.vsp.blocks)), from, src) {}
  }

  /** Appends the candidates whose signature is new. */
  method AddUnseen(acc: seq<Candidate>, add: seq<Candidate>, seen: set<seq<seq<int>>>, ghost src: Sources)
    returns (more: seq<Candidate>, seen': set<seq<seq<int>>>)
    requires AllSourced(acc, src) && AllSourced(add, src)
    ensures AllSourced(more, src) && Parts(more) <= Parts(acc) + Parts(add)
    ensures forall c :: c in more ==> c in acc || c in add
  {
    hide Holds, Signature, Sourced, ViewTo;
    more, seen' := acc, seen;
    for k := 0 to |add|
      modifies {}
      invariant forall c :: c in more ==> c in acc || c in add
    {
      var signature := Signature(add[k].vsp);
      if signature !in seen' {
        seen' := seen' + {signature};
        more := more + [add[k]];
      }
    }
  }

  method TailsOfSeed(seed: VspSolution, raw: RawParams, limit: int, opts: Options, acc: seq<Candidate>,
                     seen: set<seq<seq<int>>>, ghost src: Sources)
    returns (more: seq<Candidate>, seen': set<seq<seq<int>>>)
    requires Seed(seed, src, raw, opts) && opts.fragmentation && AllSourced(acc, src)
    ensures AllSourced(more, src) && fresh(Parts(more) - Parts(acc))
    ensures ListsKept(acc, seed.unassigned) ==> ListsKept(more, seed.unassigned)
  {
    hide BlockFeasible, PoolTo, ViewTo, AllSourced, Relocations;
    ghost var from := View(seed.blocks);
    RearrangedProper(src.plan, from, src.p);
    var add := GenerateTailCandidates(seed, raw, limit, opts.maxTail);
    TailsSourced(add, from, seed.unassigned, limit, src);
    assert old(AllSourced(acc, src));
    assert forall b | b in Parts(acc) :: old(allocated(b));
    more, seen' := AddUnseen(acc, add, seen, src);
  }

  method RepairsOfSeed(seed: VspSolution, trips: seq<Trip>, pairs: seq<(int, int)>, raw: RawParams, limit: int,
                       opts: Options, acc: seq<Candidate>, seen: set<seq<seq<int>>>, ghost src: Sources)
    returns (more: seq<Candidate>, seen': set<seq<seq<int>>>)
    requires Seed(seed, src, raw, opts) && opts.pairRepair && AllSourced(acc, src)
    requires DistinctBlockIds(seed.blocks) && src.trips == trips && src.pairs == pairs
    ensures AllSourced(more, src) && fresh(Parts(more) - Parts(acc))
    ensures ListsKept(acc, seed.unassigned) ==> ListsKept(more, seed.unassigned)
  {
    hide BlockFeasible, PoolTo, ViewTo, AllSourced, Repairs;
    ghost var from := View(seed.blocks);
    RearrangedProper(src.plan, from, src.p);
    var add := GeneratePairRepairs(seed, trips, pairs, raw, limit);
    PairsSourced(add, from, seed.unassigned, limit, src);
    assert old(AllSourced(acc, src));
    assert forall b | b in Parts(acc) :: old(allocated(b));
    more, seen' := AddUnseen(acc, add, seen, src);
  }

  /** One of the two solutions the generators start from. */
  ghost predicate Seed(seed: VspSolution, src: Sources, raw: RawParams, opts: Options)
    reads Objs(seed.blocks)`trips
  {
    && src.p == Extract(raw) && src.opts == opts && Proper(src.plan, src.p) && Holds(seed, src.plan, src.p)
    && (View(seed.blocks) == src.plan || View(seed.blocks) == src.base)
  }

  /** Tail relocations of the input and, when it differs, of the merged and swapped solution. */
  method TailPhase(vsp: VspSolution, base: VspSolution, raw: RawParams, opts: Options, ghost src: Sources)
    returns (cands: seq<Candidate>)
    requires Seed(vsp, src, raw, opts) && Seed(base, src, raw, opts) && opts.fragmentation
    requires base.unassigned == vsp.unassigned
    ensures ListsKept(cands, vsp.unassigned)
    ensures AllSourced(cands, src) && fresh(Parts(cands))
  {
    hide Seed, Signature, Sourced, Holds, ViewTo;
    var two := Signature(base) != Signature(vsp);
    var limit := Max(64, opts.tailLimit * (if two then 2 else 1) * 2);
    var seen;
    cands, seen := TailsOfSeed(vsp, raw, limit, opts, [], {}, src);
    assert old(Seed(base, src, raw, opts));
    assert forall b | b in Objs(base.blocks) :: old(allocated(b));
    if two {
      cands, seen := TailsOfSeed(base, raw, limit, opts, cands, seen, src);
    }
    ShortlistFacts(cands, opts.tailLimit);
    PartsSubset(Shortlist(cands, opts.tailLimit), cands);
    cands := Shortlist(cands, opts.tailLimit);
  }

  method RepairPhase(vsp: VspSolution, base: VspSolution, trips: seq<Trip>, pairs: seq<(int, int)>, raw: RawParams,
                     opts: Options, ghost src: Sources)
    returns (cands: seq<Candidate>)
    requires Seed(vsp, src, raw, opts) && Seed(base, src, raw, opts) && opts.pairRepair
    requires DistinctBlockIds(vsp.blocks) && DistinctBlockIds(base.blocks)
    requires base.unassigned == vsp.unassigned && src.trips == trips && src.pairs == pairs
    ensures ListsKept(cands, vsp.unassigned)
    ensures AllSourced(cands, src) && fresh(Parts(cands))
  {
    hide Seed, Signature, Sourced, Holds, ViewTo;
    var two := Signature(base) != Signature(vsp);
    var limit := Max(32, opts.tailLimit * (if two then 2 else 1) * 2);
    var seen;
    cands, seen := RepairsOfSeed(vsp, trips, pairs, raw, limit, opts, [], {}, src);
    assert old(Seed(base, src, raw, opts));
    assert forall b | b in Objs(base.blocks) :: old(allocated(b));
    if two {
      cands, seen := RepairsOfSeed(base, trips, pairs, raw, limit, opts, cands, seen, src);
    }
    ShortlistFacts(cands, opts.tailLimit);
    PartsSubset(Shortlist(cands, opts.tailLimit), cands);
    cands := Shortlist(cands, opts.tailLimit);
  }

  /** The facts about the input and the merged solution that every phase leaves alone. */
  ghost predicate Seeds(vsp: VspSolution, base: VspSolution, src: Sources)
    reads Objs(vsp.blocks), Objs(base.blocks)
  {
    && View(vsp.blocks) == src.plan && Distinct(vsp.blocks) && DistinctBlockIds(vsp.blocks)
    && View(base.blocks) == src.base && base.unassigned == vsp.unassigned
    && Holds(base, src.plan, src.p) && DistinctBlockIds(base.blocks)
    && Proper(src.plan, src.p)
  }

  lemma SeedFacts(vsp: VspSolution, base: VspSolution, src: Sources, raw: RawParams, opts: Options)
    requires Seeds(vsp, base, src) && src.p == Extract(raw) && src.opts == opts
    ensures View(vsp.blocks) == src.plan && Proper(src.plan, src.p) && View(base.blocks) == src.base
    ensures Distinct(vsp.blocks) && DistinctBlockIds(vsp.blocks) && DistinctBlockIds(base.blocks)
    ensures Seed(vsp, src, raw, opts) && Seed(base, src, raw, opts)
    ensures base.unassigned == vsp.unassigned
  {
  }

  lemma NoneSourced(src: Sources)
    ensures AllSourced([], src)
  {
  }

  lemma SourcedConcat(a: seq<Candidate>, b: seq<Candidate>, src: Sources)
    requires AllSourced(a, src) && AllSourced(b, src)
    ensures AllSourced(a + b, src) && Parts(a + b) == Parts(a) + Parts(b)
  {
    hide Holds, Sourced, ViewTo;
  }

  lemma OneSourced(c: Candidate, src: Sources)
    requires Holds(c.vsp, src.plan, src.p) && Sourced(multiset(View(c.vsp.blocks)), src)
    ensures AllSourced([c], src) && Parts([c]) == Objs(c.vsp.blocks)
  {
    hide Holds, Sourced, ViewTo;
  }

  method AddTails(vsp: VspSolution, base: VspSolution, raw: RawParams, opts: Options, cands: seq<Candidate>,
                  ghost src: Sources)
    returns (more: seq<Candidate>)
    requires Seeds(vsp, base, src) && AllSourced(cands, src) && src.p == Extract(raw) && src.opts == opts
    ensures Seeds(vsp, base, src) && AllSourced(more, src)
    ensures fresh(Parts(more) - Parts(cands))
    ensures ListsKept(cands, vsp.unassigned) ==> ListsKept(more, vsp.unassigned)
  {
    hide Seeds, Seed, AllSourced, Proper, ViewTo;
    SeedFacts(vsp, base, src, raw, opts);
    NoneSourced(src);
    var add: seq<Candidate> := [];
    if opts.fragmentation {
      add := TailPhase(vsp, base, raw, opts, src);
    }
    assert old(Seeds(vsp, base, src)) && old(AllSourced(cands, src));
    assert forall b | b in Objs(vsp.blocks) + Objs(base.blocks) + Parts(cands) :: old(allocated(b));
    SourcedConcat(cands, add, src);
    more := cands + add;
  }

  method AddRepairs(vsp: VspSolution, base: VspSolution, trips: seq<Trip>, pairs: seq<(int, int)>, raw: RawParams,
                    opts: Options, cands: seq<Candidate>, ghost src: Sources)
    returns (more: seq<Candidate>)
    requires Seeds(vsp, base, src) && AllSourced(cands, src) && src.p == Extract(raw) && src.opts == opts
    requires src.trips == trips && src.pairs == pairs
    ensures Seeds(vsp, base, src) && AllSourced(more, src)
    ensures fresh(Parts(more) - Parts(cands))
    ensures ListsKept(cands, vsp.unassigned) ==> ListsKept(more, vsp.unassigned)
  {
    hide Seeds, Seed, AllSourced, Proper, ViewTo;
    SeedFacts(vsp, base, src, raw, opts);
    NoneSourced(src);
    var add: seq<Candidate> := [];
    if opts.pairRepair && trips != [] {
      add := RepairPhase(vsp, base, trips, pairs, raw, opts, src);
    }
    assert old(Seeds(vsp, base, src)) && old(AllSourced(cands, src));
    assert forall b | b in Objs(vsp.blocks) + Objs(base.blocks) + Parts(cands) :: old(allocated(b));
    SourcedConcat(cands, add, src);
    more := cands + add;
  }

  method AddLns(vsp: VspSolution, crew: CrewSolution, base: VspSolution, raw: RawParams, opts: Options,
                cands: seq<Candidate>, ghost src: Sources)
    returns (more: seq<Candidate>)
    requires Seeds(vsp, base, src) && AllSourced(cands, src) && src.p == Extract(raw) && src.opts == opts
    ensures Seeds(vsp, base, src) && AllSourced(more, src)
    ensures fresh(Parts(more) - Parts(cands))
    ensures ListsKept(cands, vsp.unassigned) ==> ListsKept(more, vsp.unassigned)
  {
    hide Seeds, Seed, AllSourced, Holds, Proper, ViewTo;
    SeedFacts(vsp, base, src, raw, opts);
    NoneSourced(src);
    var add: seq<Candidate> := [];
    if opts.lns && |vsp.blocks| > 2 {
      var found, foundCrew, accepted := Search(vsp, crew, raw, opts.idleRate, opts.lnsIterations);
      add := [Candidate(found, [])];
      assert |multiset(View(found.blocks))| == |found.blocks|;
      OneSourced(add[0], src);
    }
    assert old(Seeds(vsp, base, src)) && old(AllSourced(cands, src));
    assert forall b | b in Objs(vsp.blocks) + Objs(base.blocks) + Parts(cands) :: old(allocated(b));
    SourcedConcat(cands, add, src);
    more := cands + add;
  }

  lemma SeedsOf(vsp: VspSolution, base: VspSolution, src: Sources)
    requires View(vsp.blocks) == src.plan && Distinct(vsp.blocks) && DistinctBlockIds(vsp.blocks)
    requires View(base.blocks) == src.base && base.unassigned == vsp.unassigned
    requires Holds(base, src.plan, src.p) && DistinctBlockIds(base.blocks) && Proper(src.plan, src.p)
    ensures Seeds(vsp, base, src) && Sourced(multiset(View(base.blocks)), src)
    ensures Rearranged(src.plan, src.base, src.p)
  {
  }

  /** Everything the selection loop will look at, in the order it will look. */
  method CollectCandidates(vsp: VspSolution, crew: CrewSolution, trips: seq<Trip>, pairs: seq<(int, int)>,
                           raw: RawParams, opts: Options)
    returns (cands: seq<Candidate>, ghost src: Sources)
    requires Distinct(vsp.blocks) && DistinctBlockIds(vsp.blocks) && Proper(View(vsp.blocks), Extract(raw))
    ensures src == Sources(old(View(vsp.blocks)), src.base, trips, pairs, opts, Extract(raw))
    ensures Rearranged(src.plan, src.base, src.p) && |src.base| <= |src.plan|
    ensures AllSourced(cands, src)
    ensures fresh(Parts(cands) - Objs(vsp.blocks))
    ensures ListsKept(cands, vsp.unassigned)
  {
    hide ViewTo, Rearranged, Proper, Sourced, Seeds, AllSourced;
    ghost var plan := View(vsp.blocks);
    var base := MergeAndSwap(vsp, raw, opts.maxUnpaidBreak);
    assert View(vsp.blocks) == plan;
    src := Sources(plan, View(base.blocks), trips, pairs, opts, Extract(raw));
    SeedsOf(vsp, base, src);
    hide Holds;
    NoneSourced(src);
    OneSourced(Candidate(base, []), src);
    cands := if base != vsp then [Candidate(base, [])] else [];
    cands := AddTails(vsp, base, raw, opts, cands, src);
    cands := AddRepairs(vsp, base, trips, pairs, raw, opts, cands, src);
    cands := AddLns(vsp, crew, base, raw, opts, cands, src);
  }

  // ---- selection ----

  /** Looks at one candidate: a known signature or a filter skips it, an oracle may fail, the rest is judged. */
  method Consider(best: Incumbent, cand: VspSolution, seen: set<seq<seq<int>>>, filterFleet: bool, integrity: bool)
    returns (best': Incumbent, seen': set<seq<seq<int>>>, raised: bool, ghost judged: Option<Incumbent>)
    ensures judged.None? ==> best' == best
    ensures judged.Some? ==> judged.value.vsp == cand && Measured(judged.value)
    ensures judged.Some? ==> best' == Better(best, judged.value, integrity)
    ensures seen' == seen + {old(Signature(cand))}
    ensures old(Signature(cand)) in seen || raised || (filterFleet && |cand.blocks| > |best.vsp.blocks| + 1) ==>
      judged.None?
    ensures judged.None? ==> old(Signature(cand)) in seen || raised || filterFleet
    ensures old(Signature(cand)) in seen ==> !raised
  {
    hide Signature, IsBetter;
    best', seen', raised, judged := best, seen, false, None;
    var signature := Signature(cand);
    if signature in seen {
      assert seen + {signature} == seen;
      return;
    }
    seen' := seen + {signature};
    if filterFleet {
      if |cand.blocks| > |best.vsp.blocks| + 1 {
        return;
      }
      var tooDear := Judge();  // the fleet cost alone is over the incumbent's by 15 percent
      if tooDear {
        return;
      }
    }
    raised := Judge();  // the crew solver or the metrics may raise
    if raised {
      return;
    }
    var crew := SolveCrew();
    var metrics := Measure(crew, cand);
    judged := Some(Incumbent(cand, crew, metrics));
    if IsBetter(best.metrics, metrics, integrity) {
      best' := Incumbent(cand, crew, metrics);
    }
  }

  function Better(best: Incumbent, other: Incumbent, integrity: bool): Incumbent {
    if IsBetter(best.metrics, other.metrics, integrity) then other else best
  }

  /** The incumbent after n judged candidates. */
  ghost function Champion(input: Incumbent, judged: seq<Incumbent>, n: nat, integrity: bool): Incumbent
    requires n <= |judged|
  {
    if n == 0 then input else Better(Champion(input, judged, n - 1, integrity), judged[n - 1], integrity)
  }

  lemma {:induction false} ChampionAgree(input: Incumbent, a: seq<Incumbent>, b: seq<Incumbent>, n: nat,
                                         integrity: bool)
    requires n <= |a| && n <= |b| && forall i :: 0 <= i < n ==> a[i] == b[i]
    ensures Champion(input, a, n, integrity) == Champion(input, b, n, integrity)
  {
    if n > 0 { ChampionAgree(input, a, b, n - 1, integrity); }
  }

  /** The champion is the input or a judged candidate, and never worse than the input in what is protected. */
  lemma {:induction false} ChampionFacts(input: Incumbent, judged: seq<Incumbent>, n: nat, integrity: bool)
    requires n <= |judged|
    ensures NoWorse(input.metrics, Champion(input, judged, n, integrity).metrics, integrity)
    ensures Champion(input, judged, n, integrity) == input
      || exists k :: 0 <= k < n && judged[k] == Champion(input, judged, n, integrity)
  {
    hide IsBetter;
    if n > 0 {
      ChampionFacts(input, judged, n - 1, integrity);
      BetterIsNoWorse(Champion(input, judged, n - 1, integrity).metrics, judged[n - 1].metrics, integrity);
    }
  }

  lemma BetterIsNoWorse(a: Metrics, b: Metrics, integrity: bool)
    ensures IsBetter(a, b, integrity) ==> NoWorse(a, b, integrity)
  {
  }

  /** The selection loop: a left fold of the comparison over the candidates it judges, each signature at most once. */
  method SelectBest(input: Incumbent, sols: seq<VspSolution>, seen: set<seq<seq<int>>>, filterFleet: bool,
                    integrity: bool)
    returns (best: Incumbent, seen': set<seq<seq<int>>>, raised: bool, ghost judged: seq<Incumbent>)
    requires Measured(input)
    ensures best == Champion(input, judged, |judged|, integrity)
    ensures forall t :: t in judged ==> t.vsp in sols && Measured(t)
    ensures !raised ==> forall k :: 0 <= k < |sols| ==> old(Signature(sols[k])) in seen'
    ensures Measured(best) && NoWorse(input.metrics, best.metrics, integrity)
    ensures best == input || best.vsp in sols
  {
    hide Signature, IsBetter;
    best, seen', raised, judged := input, seen, false, [];
    var k := 0;
    while k < |sols| && !raised
      modifies {}
      invariant k <= |sols|
      invariant best == Champion(input, judged, |judged|, integrity)
      invariant forall t :: t in judged ==> t.vsp in sols && Measured(t)
      invariant forall l :: 0 <= l < k ==> old(Signature(sols[l])) in seen'
      decreases |sols| - k, !raised
    {
      assert forall b | b in Objs(sols[k].blocks) :: old(allocated(b));
      assert Signature(sols[k]) == old(Signature(sols[k]));
      ghost var verdict;
      best, seen', raised, verdict := Consider(best, sols[k], seen', filterFleet, integrity);
      if verdict.Some? {
        ChampionAgree(input, judged + [verdict.value], judged, |judged|, integrity);
        judged := judged + [verdict.value];
      }
      k := k + 1;
    }
    ChampionFacts(input, judged, |judged|, integrity);
  }

  function Solutions(cands: seq<Candidate>): (r: seq<VspSolution>)
    ensures |r| == |cands| && forall k :: 0 <= k < |r| ==> r[k] == cands[k].vsp
  {
    seq(|cands|, k requires 0 <= k < |cands| => cands[k].vsp)
  }

  /** A judged solution: measured, over the plan's trips, with the unassigned list kept or lost. */
  ghost predicate Judged(t: Incumbent, plan: Plan, unassigned: seq<Trip>, p: Params)
    reads Objs(t.vsp.blocks)`trips
  {
    Measured(t) && Holds(t.vsp, plan, p) && KeepsList(t.vsp, unassigned)
  }

  /** Judged in the first round: out of one of the generators. */
  ghost predicate JudgedFirst(t: Incumbent, unassigned: seq<Trip>, src: Sources)
    reads Objs(t.vsp.blocks)`trips
  {
    Judged(t, src.plan, unassigned, src.p) && Sourced(multiset(View(t.vsp.blocks)), src)
  }

  /** Judged in the second round: blocks of the first champion split, its unassigned list kept. */
  ghost predicate JudgedSecond(t: Incumbent, champion: VspSolution, plan: Plan, p: Params)
    reads Objs(t.vsp.blocks)`trips, Objs(champion.blocks)`trips
  {
    && Measured(t) && Holds(t.vsp, plan, p) && t.vsp.unassigned == champion.unassigned
    && Feedback.IsSplit(t.vsp, View(champion.blocks))
  }

  /** The first selection round over the collected candidates. */
  method FirstRound(input: Incumbent, cands: seq<Candidate>, integrity: bool, ghost src: Sources)
    returns (best: Incumbent, seen: set<seq<seq<int>>>, raised: bool, ghost judged: seq<Incumbent>)
    requires Measured(input) && Holds(input.vsp, src.plan, src.p) && AllSourced(cands, src)
    requires ListsKept(cands, input.vsp.unassigned)
    ensures best == Champion(input, judged, |judged|, integrity)
    ensures forall t :: t in judged ==>
      JudgedFirst(t, input.vsp.unassigned, src) && exists c :: c in cands && c.vsp == t.vsp
    ensures !raised ==> forall c :: c in cands ==> old(Signature(c.vsp)) in seen
    ensures Judged(best, src.plan, input.vsp.unassigned, src.p) && NoWorse(input.metrics, best.metrics, integrity)
    ensures best == input || Objs(best.vsp.blocks) <= Parts(cands)
  {
    hide Signature, IsBetter, Holds, ViewTo, Sourced;
    best, seen, raised, judged := SelectBest(input, Solutions(cands), {Signature(input.vsp)}, true, integrity);
    assert old(Holds(input.vsp, src.plan, src.p));
    assert forall b | b in Objs(input.vsp.blocks) :: old(allocated(b));
    forall c | c in cands && !raised ensures old(Signature(c.vsp)) in seen {
      var k :| 0 <= k < |cands| && cands[k] == c;
      assert Solutions(cands)[k] == c.vsp;
    }
    forall t | t in judged
      ensures JudgedFirst(t, input.vsp.unassigned, src) && exists c :: c in cands && c.vsp == t.vsp
    {
      var k :| 0 <= k < |cands| && Solutions(cands)[k] == t.vsp;
      assert cands[k] in cands && t.vsp == cands[k].vsp;
      assert forall b | b in Objs(t.vsp.blocks) :: old(allocated(b));
      assert old(Holds(t.vsp, src.plan, src.p)) && old(Sourced(multiset(View(t.vsp.blocks)), src));
    }
    ChampionFacts(input, judged, |judged|, integrity);
  }

  /** The crew-feedback round: splits blocks behind violations and selects again. */
  method FeedbackRound(input: Incumbent, seen: set<seq<seq<int>>>, raw: RawParams, integrity: bool, ghost plan: Plan)
    returns (best: Incumbent, raised: bool, ghost judged: seq<Incumbent>)
    requires Measured(input) && Proper(plan, Extract(raw)) && Holds(input.vsp, plan, Extract(raw))
    modifies Objs(input.vsp.blocks)`id
    ensures best == Champion(input, judged, |judged|, integrity)
    ensures forall t :: t in judged ==> JudgedSecond(t, input.vsp, plan, Extract(raw))
    ensures input.metrics.violations <= 0 ==> best == input && judged == [] && !raised
    ensures Measured(best) && NoWorse(input.metrics, best.metrics, integrity)
    ensures Holds(best.vsp, plan, Extract(raw))
    ensures best.vsp.unassigned == input.vsp.unassigned
  {
    hide Signature, IsBetter, BlockFeasible, PoolTo, ViewTo;
    best, raised, judged := input, false, [];
    if input.metrics.violations > 0 {
      ghost var p := Extract(raw);
      ghost var from := View(input.vsp.blocks);
      RearrangedProper(plan, from, p);
      var sols;
      ghost var log;
      sols, log := Feedback.FeedbackCandidates(input.vsp, input.crew.problemBlocks, raw);
      best, raised, judged := SecondRound(input, sols, seen, integrity, plan, p);
    }
  }

  method SecondRound(input: Incumbent, sols: seq<VspSolution>, seen: set<seq<seq<int>>>, integrity: bool,
                     ghost plan: Plan, ghost p: Params)
    returns (best: Incumbent, raised: bool, ghost judged: seq<Incumbent>)
    requires Measured(input) && Holds(input.vsp, plan, p)
    requires Feedback.AllSolutionsHold(sols, View(input.vsp.blocks), input.vsp.unassigned, p)
    ensures View(input.vsp.blocks) == old(View(input.vsp.blocks))
    ensures Measured(best) && NoWorse(input.metrics, best.metrics, integrity)
    ensures Holds(best.vsp, plan, p)
    ensures best == Champion(input, judged, |judged|, integrity)
    ensures forall t :: t in judged ==> JudgedSecond(t, input.vsp, plan, p) && t.vsp in sols
    ensures best.vsp.unassigned == input.vsp.unassigned
  {
    hide Signature, IsBetter, BlockFeasible, PoolTo, ViewTo, Feedback.IsSplit;
    ghost var from := View(input.vsp.blocks);
    var seen';
    best, seen', raised, judged := SelectBest(input, sols, seen, false, integrity);
    assert View(input.vsp.blocks) == from;
    assert old(Holds(input.vsp, plan, p));
    assert forall b | b in Objs(input.vsp.blocks) :: old(allocated(b));
    forall t | t in judged ensures JudgedSecond(t, input.vsp, plan, p) {
      assert old(Holds(t.vsp, from, p)) && old(Feedback.IsSplit(t.vsp, from));
      assert forall b | b in Objs(t.vsp.blocks) :: old(allocated(b));
      RearrangedTwice(plan, from, View(t.vsp.blocks), p);
    }
    ChampionFacts(input, judged, |judged|, integrity);
    assert best == input || best in judged;
  }

  /**
   * `joint_duty_vehicle_swap`. Whatever the oracles answer, the returned blocks run exactly the input
   * blocks' trips, feasibly; nothing protected got worse; and the input's trip sequences are untouched
   * (its block ids may be renumbered). The result is the fold of the comparison over the candidates judged
   * in the two rounds, or the input when an oracle raised. The first round judges what the generators make
   * of the input and of its merged and swapped form, the second splits blocks of the first round's champion.
   */
  method JointDutyVehicleSwap(crew: CrewSolution, vsp: VspSolution, trips: seq<Trip>, pairs: seq<(int, int)>,
                              raw: RawParams, opts: Options)
    returns (crew': CrewSolution, vsp': VspSolution, baseline: Metrics, final: Metrics,
             ghost first: seq<Incumbent>, ghost second: seq<Incumbent>, ghost raised: bool, ghost src: Sources)
    requires Distinct(vsp.blocks) && DistinctBlockIds(vsp.blocks) && Proper(View(vsp.blocks), Extract(raw))
    modifies Objs(vsp.blocks)`id
    ensures Holds(vsp', old(View(vsp.blocks)), Extract(raw))
    ensures View(vsp.blocks) == old(View(vsp.blocks))
    ensures NoWorse(baseline, final, opts.integrity)
    ensures vsp'.unassigned == vsp.unassigned || vsp'.unassigned == []
    ensures crew'.violations <= crew.violations
    ensures baseline.unassigned == |vsp.unassigned| && final.unassigned == |vsp'.unassigned|
    ensures baseline.violations == crew.violations && final.violations == crew'.violations
    ensures raised ==> crew' == crew && vsp' == vsp && final == baseline
    ensures !raised ==>
      Incumbent(vsp', crew', final) == TwoRounds(Incumbent(vsp, crew, baseline), first, second, opts.integrity)
    ensures src == Sources(old(View(vsp.blocks)), src.base, trips, pairs, opts, Extract(raw))
    ensures Rearranged(src.plan, src.base, src.p) && |src.base| <= |src.plan|
    ensures forall t :: t in first ==> JudgedFirst(t, vsp.unassigned, src)
    ensures forall t :: t in second ==>
      var champion := Champion(Incumbent(vsp, crew, baseline), first, |first|, opts.integrity);
      champion.metrics.violations > 0 && JudgedSecond(t, champion.vsp, src.plan, src.p)
    ensures |vsp.blocks| < 2 ==> vsp' == vsp && crew' == crew
  {
    hide Signature, IsBetter, BlockFeasible, PoolTo, ViewTo, AllSourced, Sourced, Feedback.IsSplit, Champion;
    ghost var p := Extract(raw);
    ghost var plan := View(vsp.blocks);
    src := Sources(plan, plan, trips, pairs, opts, p);
    baseline := Measure(crew, vsp);
    crew', vsp', final, first, second, raised := crew, vsp, baseline, [], [], false;
    if |vsp.blocks| < 2 {
      NoRounds(Incumbent(vsp, crew, baseline), opts.integrity);
      return;
    }
    var input := Incumbent(vsp, crew, baseline);
    var cands;
    cands, src := CollectCandidates(vsp, crew, trips, pairs, raw, opts);
    assert View(vsp.blocks) == plan;
    var best, seen, stopped;
    best, seen, stopped, first := FirstRound(input, cands, opts.integrity, src);
    assert View(vsp.blocks) == plan;
    raised := stopped;
    if stopped {
      return;
    }
    var last, failed;
    label Rated:
    last, failed, second := FeedbackRound(best, seen, raw, opts.integrity, plan);
    assert View(vsp.blocks) == plan;
    forall t | t in first ensures JudgedFirst(t, vsp.unassigned, src) {
      assert old@Rated(JudgedFirst(t, vsp.unassigned, src));
      assert forall b | b in Objs(t.vsp.blocks) :: old@Rated(allocated(b));
    }
    raised := failed;
    if !failed {
      crew', vsp', final := last.crew, last.vsp, last.metrics;
    }
  }

  lemma NoRounds(input: Incumbent, integrity: bool)
    ensures TwoRounds(input, [], [], integrity) == input
  {
  }

  ghost function TwoRounds(input: Incumbent, first: seq<Incumbent>, second: seq<Incumbent>,
                           integrity: bool): Incumbent {
    var best := Champion(input, first, |first|, integrity);
    Champion(best, second, |second|, integrity)
  }
}
