// A plan is the list of chains of a solution. Its pool is everything the plan runs, with multiplicity.
module Plans {
  import opened Domain
  import opened Kernel

  type Plan = seq<Chain>

  ghost predicate PlanFeasible(plan: Plan, p: Params) {
    forall i :: 0 <= i < |plan| ==> BlockFeasible(plan[i], p)
  }

  ghost predicate NoEmptyChain(plan: Plan) {
    forall i :: 0 <= i < |plan| ==> plan[i] != []
  }

  /** Trips of the first n chains. */
  ghost function PoolTo(plan: Plan, n: nat): multiset<Trip>
    requires n <= |plan|
  {
    if n == 0 then multiset{} else PoolTo(plan, n - 1) + multiset(plan[n - 1])
  }

  ghost function Pool(plan: Plan): multiset<Trip> {
    PoolTo(plan, |plan|)
  }

  lemma {:induction false} PoolAgree(a: Plan, b: Plan, n: nat)
    requires n <= |a| && n <= |b| && forall i :: 0 <= i < n ==> a[i] == b[i]
    ensures PoolTo(a, n) == PoolTo(b, n)
  {
    if n > 0 { PoolAgree(a, b, n - 1); }
  }

  lemma {:induction false} PoolConcatTo(a: Plan, b: Plan, n: nat)
    requires n <= |b|
    ensures PoolTo(a + b, |a| + n) == Pool(a) + PoolTo(b, n)
  {
    if n == 0 {
      PoolAgree(a + b, a, |a|);
    } else {
      PoolConcatTo(a, b, n - 1);
    }
  }

  lemma PoolConcat(a: Plan, b: Plan)
    ensures Pool(a + b) == Pool(a) + Pool(b)
  {
    PoolConcatTo(a, b, |b|);
  }

  lemma PoolSingle(c: Chain)
    ensures Pool([c]) == multiset(c)
  {
    assert PoolTo([c], 1) == PoolTo([c], 0) + multiset(c);
  }

  lemma {:induction false} PoolUpdateTo(plan: Plan, k: nat, c: Chain, n: nat)
    requires k < n <= |plan|
    ensures multiset(plan[k]) <= PoolTo(plan, n)
    ensures PoolTo(plan[k := c], n) == PoolTo(plan, n) - multiset(plan[k]) + multiset(c)
  {
    if n == k + 1 {
      PoolAgree(plan[k := c], plan, k);
    } else {
      PoolUpdateTo(plan, k, c, n - 1);
      Reorder(PoolTo(plan, n - 1), multiset(plan[k]), multiset(c), multiset(plan[n - 1]));
    }
  }

  lemma Reorder<T>(all: multiset<T>, out: multiset<T>, added: multiset<T>, rest: multiset<T>)
    requires out <= all
    ensures out <= all + rest && all - out + added + rest == all + rest - out + added
  {
  }

  lemma PoolUpdate(plan: Plan, k: nat, c: Chain)
    requires k < |plan|
    ensures multiset(plan[k]) <= Pool(plan)
    ensures Pool(plan[k := c]) == Pool(plan) - multiset(plan[k]) + multiset(c)
  {
    PoolUpdateTo(plan, k, c, |plan|);
  }

  function Without<T>(s: seq<T>, k: nat): (r: seq<T>)
    requires k < |s|
    ensures |r| == |s| - 1 && forall i :: 0 <= i < |r| ==> r[i] == if i < k then s[i] else s[i + 1]
  {
    s[..k] + s[k + 1..]
  }

  lemma {:induction false} PoolWithoutTo(plan: Plan, k: nat, n: nat)
    requires k <= n < |plan|
    ensures PoolTo(plan, n + 1) == PoolTo(Without(plan, k), n) + multiset(plan[k])
  {
    if n == k {
      PoolAgree(Without(plan, k), plan, k);
    } else {
      PoolWithoutTo(plan, k, n - 1);
      assert Without(plan, k)[n - 1] == plan[n];
    }
  }

  lemma PoolWithout(plan: Plan, k: nat)
    requires k < |plan|
    ensures Pool(plan) == Pool(Without(plan, k)) + multiset(plan[k])
  {
    PoolWithoutTo(plan, k, |plan| - 1);
  }

  lemma Unplug<T>(s: seq<T>, k: nat)
    requires k < |s|
    ensures multiset(s) == multiset(Without(s, k)) + multiset{s[k]}
  {
    assert s == s[..k] + [s[k]] + s[k + 1..];
  }

  lemma CancelOne<T>(a: multiset<T>, b: multiset<T>, x: T)
    requires a + multiset{x} == b + multiset{x}
    ensures a == b
  {
    assert a == a + multiset{x} - multiset{x};
    assert b == b + multiset{x} - multiset{x};
  }

  /** The pool does not depend on the order of the chains. */
  lemma {:induction false} PoolPermute(a: Plan, b: Plan)
    requires multiset(a) == multiset(b)
    ensures Pool(a) == Pool(b)
    decreases |a|
  {
    if a == [] {
      assert |b| == |multiset(b)|;
    } else {
      assert a[0] in multiset(b);
      var k :| 0 <= k < |b| && b[k] == a[0];
      PoolWithout(a, 0);
      PoolWithout(b, k);
      Unplug(a, 0);
      Unplug(b, k);
      CancelOne(multiset(Without(a, 0)), multiset(Without(b, k)), a[0]);
      PoolPermute(Without(a, 0), Without(b, k));
    }
  }

  lemma FeasiblePermute(a: Plan, b: Plan, p: Params)
    requires multiset(a) == multiset(b) && PlanFeasible(a, p)
    ensures PlanFeasible(b, p)
  {
    forall i | 0 <= i < |b| ensures BlockFeasible(b[i], p) {
      assert b[i] in multiset(b);
      assert b[i] in a;
    }
  }

  lemma NoEmptyPermute(a: Plan, b: Plan)
    requires multiset(a) == multiset(b) && NoEmptyChain(a)
    ensures NoEmptyChain(b)
  {
    forall i | 0 <= i < |b| ensures b[i] != [] {
      assert b[i] in multiset(a);
      assert b[i] in a;
    }
  }

  /** The non-empty chains among the first n. */
  function DropEmptyTo(plan: Plan, n: nat): Plan
    requires n <= |plan|
  {
    if n == 0 then []
    else if plan[n - 1] == [] then DropEmptyTo(plan, n - 1)
    else DropEmptyTo(plan, n - 1) + [plan[n - 1]]
  }

  function DropEmpty(plan: Plan): Plan {
    DropEmptyTo(plan, |plan|)
  }

  lemma {:induction false} DropEmptyPool(plan: Plan, n: nat)
    requires n <= |plan|
    ensures Pool(DropEmptyTo(plan, n)) == PoolTo(plan, n)
  {
    if n > 0 {
      DropEmptyPool(plan, n - 1);
      if plan[n - 1] != [] {
        PoolConcat(DropEmptyTo(plan, n - 1), [plan[n - 1]]);
        PoolSingle(plan[n - 1]);
      }
    }
  }

  lemma {:induction false} DropEmptyMembers(plan: Plan, n: nat)
    requires n <= |plan|
    ensures forall c :: c in DropEmptyTo(plan, n) ==> c != [] && c in plan
  {
    if n > 0 { DropEmptyMembers(plan, n - 1); }
  }

  /** Number of chains with at least one trip. */
  function Vehicles(plan: Plan): nat {
    |DropEmpty(plan)|
  }

  lemma {:induction false} VehiclesTo(plan: Plan, n: nat)
    requires n <= |plan|
    ensures |DropEmptyTo(plan, n)| == n - multiset(plan[..n])[[]]
  {
    if n == 0 { return; }
    VehiclesTo(plan, n - 1);
    assert plan[..n] == plan[..n - 1] + [plan[n - 1]];
    assert multiset(plan[..n])[[]] == multiset(plan[..n - 1])[[]] + (if plan[n - 1] == [] then 1 else 0);
  }

  lemma VehiclesCount(plan: Plan)
    ensures Vehicles(plan) == |plan| - multiset(plan)[[]]
  {
    VehiclesTo(plan, |plan|);
    assert plan[..|plan|] == plan;
  }

  lemma {:induction false} DropEmptyNothing(plan: Plan, n: nat)
    requires n <= |plan| && NoEmptyChain(plan)
    ensures DropEmptyTo(plan, n) == plan[..n]
  {
    if n > 0 { DropEmptyNothing(plan, n - 1); }
  }

  lemma DropEmptyKeeps(plan: Plan, p: Params)
    ensures NoEmptyChain(DropEmpty(plan)) && |DropEmpty(plan)| <= |plan|
    ensures Pool(DropEmpty(plan)) == Pool(plan)
    ensures PlanFeasible(plan, p) ==> PlanFeasible(DropEmpty(plan), p)
    ensures NoEmptyChain(plan) ==> DropEmpty(plan) == plan
  {
    var kept := DropEmpty(plan);
    DropEmptyPool(plan, |plan|);
    DropEmptyMembers(plan, |plan|);
    VehiclesCount(plan);
    forall i | 0 <= i < |kept|
      ensures kept[i] != [] && (PlanFeasible(plan, p) ==> BlockFeasible(kept[i], p))
    {
      assert kept[i] in kept;
    }
    if NoEmptyChain(plan) {
      DropEmptyNothing(plan, |plan|);
      assert plan[..|plan|] == plan;
    }
  }

  lemma VehiclesPermute(a: Plan, b: Plan)
    requires multiset(a) == multiset(b)
    ensures Vehicles(a) == Vehicles(b)
  {
    VehiclesCount(a);
    VehiclesCount(b);
    assert |a| == |multiset(a)| && |b| == |multiset(b)|;
  }

  lemma {:induction false} PoolMember(plan: Plan, k: nat, t: Trip)
    requires k < |plan| && t in plan[k]
    ensures t in Pool(plan)
  {
    PoolUpdate(plan, k, plan[k]);
    assert t in multiset(plan[k]);
  }

  lemma PoolWellTimed(plan: Plan, k: nat)
    requires k < |plan| && WellTimedPool(Pool(plan))
    ensures WellTimed(plan[k])
  {
    forall i | 0 <= i < |plan[k]| ensures plan[k][i].start < plan[k][i].end {
      PoolMember(plan, k, plan[k][i]);
    }
  }

  // ---- two chains of a plan ----

  lemma PairInPlan(plan: Plan, i: nat, j: nat)
    requires i < |plan| && j < |plan| && i != j
    ensures multiset{plan[i], plan[j]} <= multiset(plan)
  {
    Unplug(plan, i);
    var k := if j < i then j else j - 1;
    assert Without(plan, i)[k] == plan[j];
    assert plan[j] in multiset(Without(plan, i));
  }

  lemma PlacesOfPair(plan: Plan, a: Chain, b: Chain) returns (i: nat, j: nat)
    requires multiset{a, b} <= multiset(plan)
    ensures i < |plan| && j < |plan| && i != j && plan[i] == a && plan[j] == b
  {
    i := PlaceOf(plan, a);
    Unplug(plan, i);
    LeftOver(multiset(plan), multiset(Without(plan, i)), a, b);
    var k := PlaceOf(Without(plan, i), b);
    j := if k < i then k else k + 1;
  }

  lemma PlaceOf<T>(s: seq<T>, x: T) returns (i: nat)
    requires x in multiset(s)
    ensures i < |s| && s[i] == x
  {
    i :| 0 <= i < |s| && s[i] == x;
  }

  lemma LeftOver<T>(all: multiset<T>, rest: multiset<T>, x: T, y: T)
    requires all == rest + multiset{x} && multiset{x, y} <= all
    ensures y in rest
  {
    assert all[y] >= multiset{x, y}[y] > multiset{x}[y];
  }

  lemma ReplaceTwo(plan: Plan, i: nat, j: nat, a: Chain, b: Chain)
    requires i < |plan| && j < |plan| && i != j
    ensures multiset(plan[i := a][j := b]) == multiset(plan) - multiset{plan[i], plan[j]} + multiset{a, b}
  {
    PairInPlan(plan, i, j);
    var m := plan[i := a];
    assert multiset(m) == multiset(plan) - multiset{plan[i]} + multiset{a};
    assert multiset(m[j := b]) == multiset(m) - multiset{m[j]} + multiset{b};
    ExchangeTwo(multiset(plan), plan[i], plan[j], a, b);
  }

  lemma ExchangeTwo<T>(all: multiset<T>, x: T, y: T, a: T, b: T)
    requires multiset{x, y} <= all
    ensures all - multiset{x} + multiset{a} - multiset{y} + multiset{b} == all - multiset{x, y} + multiset{a, b}
  {
    var rest := all - multiset{x, y};
    assert multiset{x, y} == multiset{x} + multiset{y} && multiset{a, b} == multiset{a} + multiset{b};
    assert all - multiset{x} == rest + multiset{y};
    assert rest + multiset{y} + multiset{a} - multiset{y} == rest + multiset{a};
  }
}
