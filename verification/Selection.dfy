// How the post-optimiser compares solutions (`_compute_global_score`, `_is_better_post_opt_candidate`).
module Selection {

  /** The figures of `_build_post_opt_metrics` that the comparison reads. */
  datatype Metrics = Metrics(
    unassigned: int,
    uncovered: int,
    vehicles: int,
    crew: int,
    violations: int,
    splitGroups: int,
    pairBreaks: int,
    fragmentation: int,
    lowUtilization: int,
    highSpread: int,
    fragmented: int,
    shortConnections: int,
    maxIdle: int)

  function GlobalScore(m: Metrics): real {
    m.unassigned as real * 10000000.0
    + m.uncovered as real * 10000000.0
    + m.vehicles as real * 1000000.0
    + m.crew as real * 100000.0
    + m.violations as real * 500000.0
    + m.pairBreaks as real * 1000.0
    + m.fragmentation as real * 100.0
    + (m.lowUtilization + m.highSpread + m.fragmented) as real * 5000.0
    + m.shortConnections as real * 1000.0
    + m.maxIdle as real * 5.0
  }

  predicate IsBetter(current: Metrics, candidate: Metrics, integrity: bool) {
    if candidate.unassigned > current.unassigned then false
    else if candidate.violations > current.violations then false
    else if integrity && candidate.splitGroups > current.splitGroups then false
    else if candidate.splitGroups < current.splitGroups
      && candidate.vehicles <= current.vehicles + 1 && candidate.crew <= current.crew then true
    else if candidate.pairBreaks < current.pairBreaks
      && candidate.vehicles <= current.vehicles + 1 && candidate.crew <= current.crew then true
    else GlobalScore(candidate) < GlobalScore(current)
  }

  /** What no accepted step, and so no run, ever worsens. */
  predicate NoWorse(before: Metrics, after: Metrics, integrity: bool) {
    && after.unassigned <= before.unassigned
    && after.violations <= before.violations
    && (integrity ==> after.splitGroups <= before.splitGroups)
  }

  ghost predicate Improving(run: seq<Metrics>, integrity: bool) {
    forall k :: 0 <= k < |run| - 1 ==> IsBetter(run[k], run[k + 1], integrity)
  }

  /** Over a whole run of accepted steps, unassigned trips, violations and protected split groups never rise. */
  lemma {:induction false} RunNeverWorsens(run: seq<Metrics>, integrity: bool, i: nat, j: nat)
    requires Improving(run, integrity) && i <= j < |run|
    ensures NoWorse(run[i], run[j], integrity)
    decreases j
  {
    if i < j {
      RunNeverWorsens(run, integrity, i, j - 1);
      assert IsBetter(run[j - 1], run[j], integrity);
    }
  }

  /** The comparison is not an order: two solutions can each be better than the other, with or without integrity. */
  lemma BetterIsCyclic(integrity: bool)
    ensures exists a, b :: IsBetter(a, b, integrity) && IsBetter(b, a, integrity)
  {
    var a := Metrics(0, 0, 10, 5, 0, 0, 3, 0, 0, 0, 0, 0, 0);
    var b := a.(pairBreaks := 2, vehicles := 11);
    assert GlobalScore(b) - GlobalScore(a) == 999000.0;
    assert IsBetter(a, b, integrity) && IsBetter(b, a, integrity);
  }

  /** Fewer split groups or broken pairs at the price of at most one vehicle and no crew: the score is not asked. */
  predicate Leaps(current: Metrics, candidate: Metrics) {
    && (candidate.splitGroups < current.splitGroups || candidate.pairBreaks < current.pairBreaks)
    && candidate.vehicles <= current.vehicles + 1 && candidate.crew <= current.crew
  }

  predicate SameProtected(a: Metrics, b: Metrics, integrity: bool) {
    a.unassigned == b.unassigned && a.violations == b.violations && (integrity ==> a.splitGroups == b.splitGroups)
  }

  /** A step is taken when nothing protected rises and it leaps or lowers the score. */
  lemma BetterIs(a: Metrics, b: Metrics, integrity: bool)
    ensures IsBetter(a, b, integrity) <==> NoWorse(a, b, integrity) && (Leaps(a, b) || GlobalScore(b) < GlobalScore(a))
  {
    hide GlobalScore;
  }

  /** Two solutions beat each other exactly when one leaps over the other, which leaps back or scores lower. */
  lemma MutualBetter(a: Metrics, b: Metrics, integrity: bool)
    ensures IsBetter(a, b, integrity) && IsBetter(b, a, integrity) <==>
      && SameProtected(a, b, integrity)
      && (|| (Leaps(a, b) && (Leaps(b, a) || GlobalScore(a) < GlobalScore(b)))
          || (Leaps(b, a) && GlobalScore(b) < GlobalScore(a)))
  {
    BetterIs(a, b, integrity);
    BetterIs(b, a, integrity);
    hide GlobalScore, IsBetter, Leaps;
  }

  /** Without a leap every accepted step lowers the score, so no accepted run ever returns to where it was. */
  lemma {:induction false} NoLeapNoCycle(run: seq<Metrics>, integrity: bool, i: nat, j: nat)
    requires Improving(run, integrity) && i < j < |run|
    requires forall k :: 0 <= k < |run| - 1 ==> !Leaps(run[k], run[k + 1])
    ensures GlobalScore(run[j]) < GlobalScore(run[i]) && run[i] != run[j]
    decreases j
  {
    hide GlobalScore, IsBetter;
    BetterIs(run[j - 1], run[j], integrity);
    assert IsBetter(run[j - 1], run[j], integrity);
    if i < j - 1 { NoLeapNoCycle(run, integrity, i, j - 1); }
  }

  /** In particular among candidates with equal pair breaks and equal split groups. */
  lemma EqualPairsNoCycle(run: seq<Metrics>, integrity: bool, i: nat, j: nat)
    requires Improving(run, integrity) && i < j < |run|
    requires forall k :: 0 <= k < |run| ==>
      run[k].pairBreaks == run[0].pairBreaks && run[k].splitGroups == run[0].splitGroups
    ensures GlobalScore(run[j]) < GlobalScore(run[i]) && run[i] != run[j]
  {
    NoLeapNoCycle(run, integrity, i, j);
  }

  /** A run that comes back keeps all that is protected, and leaps somewhere without lowering the score. */
  lemma CycleLeaps(run: seq<Metrics>, integrity: bool)
    requires |run| > 1 && Improving(run, integrity) && run[|run| - 1] == run[0]
    ensures forall k :: 0 <= k < |run| ==> SameProtected(run[0], run[k], integrity)
    ensures exists k ::
      0 <= k < |run| - 1 && Leaps(run[k], run[k + 1]) && GlobalScore(run[k]) <= GlobalScore(run[k + 1])
  {
    hide GlobalScore;
    forall k | 0 <= k < |run| ensures SameProtected(run[0], run[k], integrity) {
      RunNeverWorsens(run, integrity, 0, k);
      RunNeverWorsens(run, integrity, k, |run| - 1);
    }
    if forall k :: 0 <= k < |run| - 1 ==> GlobalScore(run[k + 1]) < GlobalScore(run[k]) {
      Falls(run, |run| - 1);
      assert false;
    }
    var k :| 0 <= k < |run| - 1 && GlobalScore(run[k]) <= GlobalScore(run[k + 1]);
    assert IsBetter(run[k], run[k + 1], integrity);
    BetterIs(run[k], run[k + 1], integrity);
  }

  lemma {:induction false} Falls(run: seq<Metrics>, n: nat)
    requires 0 < n < |run| && forall k :: 0 <= k < |run| - 1 ==> GlobalScore(run[k + 1]) < GlobalScore(run[k])
    ensures GlobalScore(run[n]) < GlobalScore(run[0])
  {
    hide GlobalScore;
    assert GlobalScore(run[n - 1 + 1]) < GlobalScore(run[n - 1]);
    if n > 1 { Falls(run, n - 1); }
  }

  /** Leaving unassigned trips out is always better: the comparison rewards a candidate that drops its list. */
  lemma DroppingWins(a: Metrics, integrity: bool)
    requires a.unassigned > 0
    ensures IsBetter(a, a.(unassigned := 0), integrity) && !IsBetter(a.(unassigned := 0), a, integrity)
  {
  }
}
