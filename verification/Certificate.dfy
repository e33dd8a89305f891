// Lower bounds on the fleet and the optimality certificate built from them.
module Certificate {
  import opened Domain
  import opened Kernel
  import opened Plans
  import opened Sweep

  // ---- weak duality ----

  /** A feasible plan that runs at least the given trips. */
  ghost predicate FeasibleCover(plan: Plan, trips: Chain, p: Params) {
    PlanFeasible(plan, p) && WellTimedPool(Pool(plan)) && multiset(trips) <= Pool(plan)
  }

  /** The trips of the first n chains, one chain after the other. */
  function AllTrips(plan: Plan, n: nat): Chain
    requires n <= |plan|
  {
    if n == 0 then [] else AllTrips(plan, n - 1) + plan[n - 1]
  }

  lemma {:induction false} AllTripsPool(plan: Plan, n: nat)
    requires n <= |plan|
    ensures multiset(AllTrips(plan, n)) == PoolTo(plan, n)
  {
    if n > 0 { AllTripsPool(plan, n - 1); }
  }

  lemma {:induction false} LoadAgree(a: Chain, b: Chain, time: int, n: nat)
    requires n <= |a| && n <= |b| && forall i :: 0 <= i < n ==> a[i] == b[i]
    ensures LoadTo(a, time, n) == LoadTo(b, time, n)
  {
    if n > 0 { LoadAgree(a, b, time, n - 1); }
  }

  lemma {:induction false} LoadConcat(a: Chain, b: Chain, time: int, n: nat)
    requires n <= |b|
    ensures LoadTo(a + b, time, |a| + n) == Load(a, time) + LoadTo(b, time, n)
  {
    if n == 0 {
      LoadAgree(a + b, a, time, |a|);
    } else {
      LoadConcat(a, b, time, n - 1);
    }
  }

  lemma {:induction false} LoadWithout(s: Chain, k: nat, time: int, n: nat)
    requires k <= n < |s|
    ensures LoadTo(s, time, n + 1) == LoadTo(Without(s, k), time, n) + (if Active(s[k], time) then 1 else 0)
  {
    if n == k {
      LoadAgree(Without(s, k), s, time, k);
    } else {
      LoadWithout(s, k, time, n - 1);
    }
  }

  lemma DropOne(s: Chain, k: nat, time: int)
    requires k < |s|
    ensures Load(s, time) == Load(Without(s, k), time) + (if Active(s[k], time) then 1 else 0)
    ensures multiset(s) == multiset(Without(s, k)) + multiset{s[k]}
  {
    LoadWithout(s, k, time, |s| - 1);
    Unplug(s, k);
  }

  /** More trips never lower the load. */
  lemma {:induction false} LoadMonotone(a: Chain, b: Chain, time: int)
    requires multiset(a) <= multiset(b)
    ensures Load(a, time) <= Load(b, time)
    decreases |a|
  {
    if a == [] { return; }
    hide LoadTo, Active, Without;
    assert a[0] in multiset(b);
    var k :| 0 <= k < |b| && b[k] == a[0];
    DropOne(a, 0, time);
    DropOne(b, k, time);
    ShrinkBoth(multiset(Without(a, 0)), multiset(Without(b, k)), a[0]);
    LoadMonotone(Without(a, 0), Without(b, k), time);
  }

  lemma ShrinkBoth<T>(a: multiset<T>, b: multiset<T>, x: T)
    requires a + multiset{x} <= b + multiset{x}
    ensures a <= b
  {
    forall y ensures a[y] <= b[y] {
      assert (a + multiset{x})[y] <= (b + multiset{x})[y];
    }
  }

  /** One vehicle runs at most one trip at a time. */
  lemma {:induction false} ChainLoad(c: Chain, p: Params, time: int, n: nat)
    requires WellTimed(c) && BlockFeasible(c, p) && n <= |c|
    ensures LoadTo(c, time, n) <= 1
    ensures LoadTo(c, time, n) == 1 ==> exists i :: 0 <= i < n && Active(c[i], time)
  {
    if n > 0 {
      ChainLoad(c, p, time, n - 1);
      if Active(c[n - 1], time) && LoadTo(c, time, n - 1) == 1 {
        var i :| 0 <= i < n - 1 && Active(c[i], time);
        FeasibleExclusive(c, p, i, n - 1, time);
        assert false;
      }
    }
  }

  lemma {:induction false} PlanLoad(plan: Plan, p: Params, time: int, n: nat)
    requires PlanFeasible(plan, p) && WellTimedPool(Pool(plan)) && n <= |plan|
    ensures Load(AllTrips(plan, n), time) <= n
  {
    if n > 0 {
      PlanLoad(plan, p, time, n - 1);
      PoolWellTimed(plan, n - 1);
      ChainLoad(plan[n - 1], p, time, |plan[n - 1]|);
      LoadConcat(AllTrips(plan, n - 1), plan[n - 1], time, |plan[n - 1]|);
    }
  }

  /** Weak duality: a feasible cover needs a vehicle for each simultaneous trip. */
  lemma WeakDuality(plan: Plan, trips: Chain, p: Params, time: int)
    requires FeasibleCover(plan, trips, p)
    ensures Load(trips, time) <= |plan|
  {
    AllTripsPool(plan, |plan|);
    LoadMonotone(trips, AllTrips(plan, |plan|), time);
    PlanLoad(plan, p, time, |plan|);
  }

  // ---- the certificate ----

  datatype Source = BodinGolden | Lagrangean | Bundle

  datatype Certificate =
    | Empty
    | NoBound(actual: nat)
    | Bounded(lowerBound: int, actual: nat, source: Source, gapPct: real, optimal: bool)

  /** Python's `round`: to the nearest integer, ties to the even one. */
  function Round(x: real): int {
    var below := x.Floor;
    var rest := x - below as real;
    if rest < 0.5 || (rest == 0.5 && below % 2 == 0) then below else below + 1
  }

  /** Rounding never lifts a bound over an integer it was below. */
  lemma RoundKeepsBound(x: real, n: int)
    requires x <= n as real
    ensures Round(x) <= n
  {
    if x.Floor >= n {
      assert x == n as real;
    }
  }

  ghost predicate ValidBound(bound: real, trips: Chain, p: Params) {
    forall plan :: FeasibleCover(plan, trips, p) ==> bound <= |plan| as real
  }

  /** What a solver left under its key: nothing, a number, or something whose comparison or rounding raises. */
  datatype MetaBound = Absent | Bound(value: real) | Unusable

  /** A bound left by a solver counts only when present and positive. */
  predicate Present(bound: MetaBound) {
    bound.Bound? && bound.value > 0.0
  }

  ghost predicate MetaValid(bound: MetaBound, trips: Chain, p: Params) {
    Present(bound) ==> ValidBound(bound.value, trips, p)
  }

  method BestSource(bodin: nat, lagrangean: MetaBound, bundle: MetaBound) returns (value: real, source: Source)
    ensures bodin as real <= value
    ensures Present(lagrangean) ==> lagrangean.value <= value
    ensures Present(bundle) ==> bundle.value <= value
    ensures match source
      case BodinGolden => value == bodin as real
      case Lagrangean => Present(lagrangean) && value == lagrangean.value > bodin as real
      case Bundle =>
        Present(bundle) && value == bundle.value > bodin as real && (Present(lagrangean) ==> value > lagrangean.value)
  {
    value, source := bodin as real, BodinGolden;
    if Present(lagrangean) && lagrangean.value > value {
      value, source := lagrangean.value, Lagrangean;
    }
    if Present(bundle) && bundle.value > value {
      value, source := bundle.value, Bundle;
    }
  }

  /** What a certificate for these trips and this fleet promises; it is empty when a solver's bound raised. */
  ghost predicate Sound(c: Certificate, all: Chain, fleet: nat, raised: bool, p: Params) {
    && (c.Empty? <==> all == [] || raised)
    && (c.NoBound? ==> c.actual == fleet && forall time :: Load(all, time) == 0)
    && (c.Bounded? ==>
        && c.actual == fleet && c.lowerBound > 0
        && (c.optimal <==> c.lowerBound == fleet)
        && GapReported(c.gapPct, fleet, c.lowerBound)
        && (forall time :: Load(all, time) <= c.lowerBound)
        && (c.source == BodinGolden ==> exists time :: Load(all, time) == c.lowerBound))
  }

  /** The reported percentage is within half a hundredth of the gap; it reads 0 for small gaps too. */
  ghost predicate GapReported(gapPct: real, fleet: int, lowerBound: int) {
    && (var b := lowerBound as real; -0.005 * b <= Times(gapPct, b) - (fleet - lowerBound) as real * 100.0 <= 0.005 * b)
    && (gapPct == 0.0 <==> -lowerBound <= 20000 * (fleet - lowerBound) <= lowerBound)
  }

  /** No feasible cover of the trips uses fewer vehicles than the certified bound. */
  ghost predicate Unbeatable(c: Certificate, all: Chain, p: Params) {
    c.Bounded? ==> forall q :: FeasibleCover(q, all, p) ==> c.lowerBound <= |q|
  }

  method Certify(all: Chain, fleet: nat, lagrangean: MetaBound, bundle: MetaBound, ghost p: Params)
    returns (c: Certificate)
    requires forall i :: 0 <= i < |all| ==> all[i].start <= all[i].end
    ensures Sound(c, all, fleet, lagrangean.Unusable? || bundle.Unusable?, p)
    ensures MetaValid(lagrangean, all, p) && MetaValid(bundle, all, p) ==> Unbeatable(c, all, p)
  {
    if all == [] || lagrangean.Unusable? || bundle.Unusable? {
      return Empty;
    }
    var bodin := BodinGoldenBound(all);
    var value, source := BestSource(bodin, lagrangean, bundle);
    c := Issue(value, source, fleet);
    IssueSound(all, fleet, bodin, value, source, p);
    if MetaValid(lagrangean, all, p) && MetaValid(bundle, all, p) {
      BestIsValid(all, bodin, value, p);
    }
  }

  /** The certificate for a best bound and a fleet size. */
  function Issue(value: real, source: Source, fleet: nat): Certificate {
    var lowerBound := Round(value);
    if lowerBound <= 0 then NoBound(fleet) else
    var gapPct := (fleet - lowerBound) as real / lowerBound as real * 100.0;
    Bounded(lowerBound, fleet, source, Hundredths(gapPct), gapPct == 0.0)
  }

  /** `round(x, 2)`. */
  function Hundredths(x: real): real {
    Round(x * 100.0) as real / 100.0
  }

  lemma IssueSound(all: Chain, fleet: nat, bodin: nat, value: real, source: Source, p: Params)
    requires all != [] && bodin as real <= value && (source == BodinGolden ==> value == bodin as real)
    requires forall time :: Load(all, time) <= bodin
    requires exists time :: Load(all, time) == bodin
    ensures Sound(Issue(value, source, fleet), all, fleet, false, p)
  {
    BodinBelow(bodin, value);
    if Round(value) > 0 {
      GapFacts(fleet, Round(value), (fleet - Round(value)) as real / Round(value) as real * 100.0);
    }
  }

  /** The best of valid bounds, rounded, is valid. */
  lemma BestIsValid(all: Chain, bodin: nat, value: real, p: Params)
    requires exists time :: Load(all, time) == bodin
    requires value == bodin as real || ValidBound(value, all, p)
    ensures forall q :: FeasibleCover(q, all, p) ==> Round(value) <= |q|
  {
    var time :| Load(all, time) == bodin;
    forall q | FeasibleCover(q, all, p) ensures Round(value) <= |q| {
      WeakDuality(q, all, p, time);
      RoundKeepsBound(value, |q|);
    }
  }

  lemma GapFacts(fleet: int, lowerBound: int, gapPct: real)
    requires lowerBound > 0 && gapPct == (fleet - lowerBound) as real / lowerBound as real * 100.0
    ensures GapReported(Hundredths(gapPct), fleet, lowerBound)
    ensures gapPct == 0.0 <==> fleet == lowerBound
  {
    var b, d, h := lowerBound as real, (fleet - lowerBound) as real, Hundredths(gapPct);
    Cleared(d, b, gapPct);
    HundredthsClose(gapPct);
    hide Hundredths, Times;
    Stretch(h, gapPct, b);
    Stretch(gapPct, 0.0, b);
    NoTimes(b);
    assert (20000 * (fleet - lowerBound)) as real == 20000.0 * d;
  }

  function Times(x: real, y: real): real {
    x * y
  }

  lemma NoTimes(x: real)
    ensures Times(0.0, x) == 0.0
  {
  }

  /** The percentage times the bound is a hundred times the missing vehicles. */
  lemma Cleared(d: real, b: real, gapPct: real)
    requires b > 0.0 && gapPct == d / b * 100.0
    ensures Times(gapPct, b) == d * 100.0 && (gapPct == 0.0 <==> d == 0.0)
  {
    var ratio := d / b;
    assert ratio * b == d;
  }

  /** Rounding to two digits moves a figure by at most 0.005, and to 0 exactly within that distance of 0. */
  lemma HundredthsClose(x: real)
    ensures -0.005 <= Hundredths(x) - x <= 0.005
    ensures Hundredths(x) == 0.0 <==> -0.005 <= x <= 0.005
  {
  }

  /** A distance of at most half a hundredth, scaled by a positive factor. */
  lemma Stretch(x: real, y: real, b: real)
    requires b > 0.0
    ensures -0.005 <= x - y <= 0.005 <==> -0.005 * b <= Times(x, b) - Times(y, b) <= 0.005 * b
  {
    SameSign(0.005 - (x - y), b);
    SameSign(x - y + 0.005, b);
    assert (0.005 - (x - y)) * b == 0.005 * b - (x * b - y * b);
    assert (x - y + 0.005) * b == (x * b - y * b) + 0.005 * b;
  }

  lemma SameSign(a: real, b: real)
    requires b > 0.0
    ensures a * b >= 0.0 <==> a >= 0.0
  {
  }

  /** A reported gap of 0 does not say optimal: 20002 vehicles against a bound of 20001. */
  lemma ZeroGapIsNotOptimal()
    ensures var c := Issue(20001.0, BodinGolden, 20002); c.Bounded? && c.gapPct == 0.0 && !c.optimal
  {
    assert Round(20001.0) == 20001;
    GapFacts(20002, 20001, (20002 - 20001) as real / 20001 as real * 100.0);
  }

  /** `certify_optimality` over the blocks' trips followed by the unassigned ones. */
  method CertifyOptimality(plan: Plan, unassigned: Chain, lagrangean: MetaBound, bundle: MetaBound, ghost p: Params)
    returns (c: Certificate)
    requires forall t :: t in AllTrips(plan, |plan|) + unassigned ==> t.start <= t.end
    ensures Sound(c, AllTrips(plan, |plan|) + unassigned, |plan|, lagrangean.Unusable? || bundle.Unusable?, p)
    ensures MetaValid(lagrangean, AllTrips(plan, |plan|) + unassigned, p)
      && MetaValid(bundle, AllTrips(plan, |plan|) + unassigned, p)
      ==> Unbeatable(c, AllTrips(plan, |plan|) + unassigned, p)
  {
    c := Certify(AllTrips(plan, |plan|) + unassigned, |plan|, lagrangean, bundle, p);
  }

  /** Trips of positive length always yield a bound. */
  lemma BoundExists(c: Certificate, all: Chain, fleet: nat, p: Params)
    requires Sound(c, all, fleet, false, p) && all != [] && WellTimed(all)
    ensures c.Bounded?
  {
    LoadPositive(all, 0, |all|);
    assert Load(all, all[0].start) >= 1;
  }

  lemma {:induction false} LoadPositive(c: Chain, k: nat, n: nat)
    requires k < n <= |c| && c[k].start < c[k].end
    ensures LoadTo(c, c[k].start, n) >= 1
  {
    if n > k + 1 { LoadPositive(c, k, n - 1); }
  }

  lemma BodinBelow(bodin: nat, value: real)
    requires bodin as real <= value
    ensures bodin <= Round(value)
    ensures value == bodin as real ==> Round(value) == bodin
  {
  }

  /** A certified solution without unassigned trips cannot be beaten by any plan over the same trips. */
  lemma CertifiedIsMinimal(plan: Plan, other: Plan, c: Certificate, p: Params)
    requires Certified(plan, c, p)
    requires PlanFeasible(other, p) && Pool(other) == Pool(plan)
    ensures |plan| <= |other|
  {
    AllTripsPool(plan, |plan|);
    assert FeasibleCover(other, AllTrips(plan, |plan|), p);
  }

  /** A certificate that says optimal, with valid solver bounds, for a plan that leaves no trip unassigned. */
  ghost predicate Certified(plan: Plan, c: Certificate, p: Params) {
    && WellTimedPool(Pool(plan))
    && Sound(c, AllTrips(plan, |plan|), |plan|, false, p) && Unbeatable(c, AllTrips(plan, |plan|), p)
    && c.Bounded? && c.optimal
  }
}
