// The rewriting steps of the post-optimiser as functions on plans, and what each one keeps.
module Moves {
  import opened Wrappers
  import opened Domain
  import opened Kernel
  import opened Plans
  import opened Sorting

  /** A solution fit to be rewritten: feasible, no empty block, valid windows, distinct trip ids. */
  ghost predicate Proper(plan: Plan, p: Params) {
    PlanFeasible(plan, p) && NoEmptyChain(plan) && WellTimedPool(Pool(plan)) && DistinctIds(Pool(plan))
  }

  /** `after` runs exactly the trips of `before`, and is again fit. */
  ghost predicate Rearranged(before: Plan, after: Plan, p: Params) {
    Pool(after) == Pool(before) && PlanFeasible(after, p) && NoEmptyChain(after)
  }

  lemma RearrangedProper(before: Plan, after: Plan, p: Params)
    requires Proper(before, p) && Rearranged(before, after, p)
    ensures Proper(after, p)
  {
  }

  lemma RearrangedTwice(a: Plan, b: Plan, c: Plan, p: Params)
    requires Rearranged(a, b, p) && Rearranged(b, c, p)
    ensures Rearranged(a, c, p)
  {
  }

  /** Dropping empty chains and reordering changes nothing that matters. */
  lemma Tidied(before: Plan, mid: Plan, after: Plan, p: Params)
    requires Pool(mid) == Pool(before) && PlanFeasible(mid, p)
    requires multiset(after) == multiset(DropEmpty(mid))
    ensures Rearranged(before, after, p)
    ensures |after| == Vehicles(mid)
  {
    DropEmptyKeeps(mid, p);
    PoolPermute(DropEmpty(mid), after);
    FeasiblePermute(DropEmpty(mid), after, p);
    assert |after| == |multiset(after)| && |DropEmpty(mid)| == |multiset(DropEmpty(mid))|;
    forall i | 0 <= i < |after| ensures after[i] != [] {
      assert after[i] in multiset(DropEmpty(mid));
      assert after[i] in DropEmpty(mid);
    }
  }

  // ---- appending a suffix (`_can_append_suffix`) ----

  datatype Refusal = Overlap | TransferInsufficient | MultiLineDisabled | ShiftExceeded

  datatype Append = Trivial | Accepted(gap: int, transferNeeded: int) | Refused(reason: Refusal)

  function CanAppendSuffix(recipient: Chain, suffix: Chain, p: Params): Append {
    if recipient == [] || suffix == [] then
      Trivial
    else
      var last, first := recipient[|recipient| - 1], suffix[0];
      var gap := first.start - last.end;
      if gap < 0 then
        Refused(Overlap)
      else if !EdgeFeasible(last, first, p.conn) then
        Refused(TransferInsufficient)
      else if !p.allowMultiLine && Lines(recipient) != {} && Lines(suffix) != {} &&
        Lines(recipient) != Lines(suffix) then
        Refused(MultiLineDisabled)
      else if p.maxShift > 0 && suffix[|suffix| - 1].end - recipient[0].start > p.maxShift then
        Refused(ShiftExceeded)
      else
        Accepted(gap, Max(p.conn.minLayover, last.DeadheadTo(first.origin)))
  }

  /** Looking at one connection, the line sets and the span decides the whole concatenation. */
  lemma SuffixCheckExact(recipient: Chain, suffix: Chain, p: Params)
    requires recipient != [] && suffix != []
    requires BlockFeasible(recipient, p) && BlockFeasible(suffix, p)
    ensures CanAppendSuffix(recipient, suffix, p).Accepted? <==> BlockFeasible(recipient + suffix, p)
  {
    JoinFeasible(recipient, suffix, p);
    assert recipient[0].line in Lines(recipient) && suffix[0].line in Lines(suffix);
  }

  // ---- ids and order inside one chain ----

  lemma ChainIdsDistinct(plan: Plan, k: nat)
    requires k < |plan| && DistinctIds(Pool(plan))
    ensures forall i, j :: 0 <= i < j < |plan[k]| ==> plan[k][i].id != plan[k][j].id
  {
    PoolUpdate(plan, k, plan[k]);
    var c := plan[k];
    forall i, j | 0 <= i < j < |c| ensures c[i].id != c[j].id {
      PoolMember(plan, k, c[i]);
      PoolMember(plan, k, c[j]);
      if c[i] == c[j] {
        Repeated(c, i, j);
        assert false;
      }
    }
  }

  /** A feasible chain is already in that order. */
  lemma SortOfFeasible(c: Chain, p: Params)
    requires WellTimed(c) && BlockFeasible(c, p)
    ensures SortTrips(c) == c
  {
    var keyed := KeyTrips(c);
    forall i, j | 0 <= i < j < |keyed| ensures LexLe(keyed[i].key, keyed[j].key) {
      FeasibleOrdered(c, p, i, j);
      LexPair(c[i].start, c[i].id, c[j].start, c[j].id);
    }
    SortOfSorted(keyed);
  }

  function RemoveIds(c: Chain, ids: set<int>): Chain {
    if c == [] then [] else (if c[0].id in ids then [] else [c[0]]) + RemoveIds(c[1..], ids)
  }

  function IdsOf(c: Chain): (ids: set<int>)
    ensures forall t :: t in c ==> t.id in ids
  {
    set t | t in c :: t.id
  }

  /** Filtering out the ids of a suffix leaves the prefix. */
  lemma {:induction false} RemoveSuffixIds(head: Chain, tail: Chain, ids: set<int>)
    requires forall t :: t in head ==> t.id !in ids
    requires forall t :: t in tail ==> t.id in ids
    ensures RemoveIds(head + tail, ids) == head
  {
    if head == [] {
      assert head + tail == tail;
      RemoveEveryId(tail, ids);
    } else {
      assert (head + tail)[1..] == head[1..] + tail;
      RemoveSuffixIds(head[1..], tail, ids);
    }
  }

  lemma {:induction false} RemoveEveryId(c: Chain, ids: set<int>)
    requires forall t :: t in c ==> t.id in ids
    ensures RemoveIds(c, ids) == []
  {
    if c != [] { RemoveEveryId(c[1..], ids); }
  }

  // ---- moving a suffix from one block to the end of another ----

  ghost function TailMoved(plan: Plan, recipient: nat, donor: nat, size: nat): Plan
    requires recipient < |plan| && donor < |plan| && recipient != donor && size <= |plan[donor]|
  {
    var cut := |plan[donor]| - size;
    plan[recipient := plan[recipient] + plan[donor][cut..]][donor := plan[donor][..cut]]
  }

  lemma TailMovedPool(plan: Plan, recipient: nat, donor: nat, size: nat)
    requires recipient < |plan| && donor < |plan| && recipient != donor && size <= |plan[donor]|
    ensures Pool(TailMoved(plan, recipient, donor, size)) == Pool(plan)
  {
    var cut := |plan[donor]| - size;
    var head, tail := plan[donor][..cut], plan[donor][cut..];
    var grown := plan[recipient := plan[recipient] + tail];
    PoolUpdate(plan, recipient, plan[recipient] + tail);
    PoolUpdate(grown, donor, head);
    assert plan[donor] == head + tail;
    MoveBetween(Pool(plan), multiset(plan[recipient]), multiset(head), multiset(tail));
  }

  lemma MoveBetween<T>(pool: multiset<T>, r: multiset<T>, head: multiset<T>, tail: multiset<T>)
    requires r <= pool
    ensures head + tail <= pool - r + (r + tail) ==> pool - r + (r + tail) - (head + tail) + head == pool
  {
  }

  lemma TailMovedFeasible(plan: Plan, recipient: nat, donor: nat, size: nat, p: Params)
    requires Proper(plan, p)
    requires recipient < |plan| && donor < |plan| && recipient != donor && size < |plan[donor]|
    requires size > 0
    requires CanAppendSuffix(plan[recipient], plan[donor][|plan[donor]| - size..], p).Accepted?
    ensures PlanFeasible(TailMoved(plan, recipient, donor, size), p)
    ensures NoEmptyChain(TailMoved(plan, recipient, donor, size))
  {
    hide CanAppendSuffix, BlockFeasible, PoolTo;
    var cut := |plan[donor]| - size;
    PoolWellTimed(plan, donor);
    SliceFeasible(plan[donor], p, 0, cut);
    SliceFeasible(plan[donor], p, cut, |plan[donor]|);
    assert plan[donor][0..cut] == plan[donor][..cut];
    assert plan[donor][cut..|plan[donor]|] == plan[donor][cut..];
    SuffixCheckExact(plan[recipient], plan[donor][cut..], p);
  }

  /** A tail relocation keeps trips, feasibility and the number of blocks. */
  lemma TailMovedOk(plan: Plan, recipient: nat, donor: nat, size: nat, p: Params)
    requires Proper(plan, p)
    requires recipient < |plan| && donor < |plan| && recipient != donor && 0 < size < |plan[donor]|
    requires CanAppendSuffix(plan[recipient], plan[donor][|plan[donor]| - size..], p).Accepted?
    ensures Rearranged(plan, TailMoved(plan, recipient, donor, size), p)
    ensures Vehicles(TailMoved(plan, recipient, donor, size)) == |plan|
  {
    DropEmptyKeeps(TailMoved(plan, recipient, donor, size), p);
    TailMovedPool(plan, recipient, donor, size);
    TailMovedFeasible(plan, recipient, donor, size, p);
  }

  // ---- moving the first trip of one block to the end of another ----

  ghost function HeadMoved(plan: Plan, i: nat, j: nat): Plan
    requires i < |plan| && j < |plan| && i != j && plan[j] != []
  {
    plan[i := plan[i] + [plan[j][0]]][j := plan[j][1..]]
  }

  lemma HeadMovedPool(plan: Plan, i: nat, j: nat)
    requires i < |plan| && j < |plan| && i != j && plan[j] != []
    ensures Pool(HeadMoved(plan, i, j)) == Pool(plan)
  {
    var first, rest := [plan[j][0]], plan[j][1..];
    PoolUpdate(plan, i, plan[i] + first);
    PoolUpdate(plan[i := plan[i] + first], j, rest);
    assert plan[j] == first + rest;
    MoveBetween(Pool(plan), multiset(plan[i]), multiset(rest), multiset(first));
    assert multiset(plan[j]) == multiset(rest) + multiset(first);
  }

  lemma HeadMovedFeasible(plan: Plan, i: nat, j: nat, p: Params)
    requires i < |plan| && j < |plan| && i != j && plan[j] != []
    requires PlanFeasible(plan, p) && WellTimedPool(Pool(plan))
    requires BlockFeasible(plan[i] + [plan[j][0]], p)
    ensures PlanFeasible(HeadMoved(plan, i, j), p)
  {
    PoolWellTimed(plan, j);
    SliceFeasible(plan[j], p, 1, |plan[j]|);
    assert plan[j][1..|plan[j]|] == plan[j][1..];
  }

  // ---- splitting one block in two ----

  lemma HalvesOk(c: Chain, mid: nat, p: Params)
    requires WellTimed(c) && BlockFeasible(c, p) && mid <= |c|
    ensures BlockFeasible(c[..mid], p) && BlockFeasible(c[mid..], p)
    ensures multiset(c[..mid]) + multiset(c[mid..]) == multiset(c)
  {
    SliceFeasible(c, p, 0, mid);
    SliceFeasible(c, p, mid, |c|);
    assert c[0..mid] == c[..mid];
    assert c[mid..|c|] == c[mid..];
    assert c == c[..mid] + c[mid..];
  }

  // ---- reuniting a preferred pair split over two blocks ----

  /** What replaces chain k: block s sheds its last trip into a new block that also takes the first trip of d. */
  ghost function Repaired(plan: Plan, s: nat, d: nat, k: nat): Plan
    requires k < |plan| && d < |plan| && |plan[d]| > 0 && (k == s ==> |plan[s]| >= 2)
  {
    if k == s then [plan[s][..|plan[s]| - 1], [plan[s][|plan[s]| - 1], plan[d][0]]]
    else if k == d then (if plan[d][1..] == [] then [] else [plan[d][1..]])
    else [plan[k]]
  }

  ghost function RepairedTo(plan: Plan, s: nat, d: nat, n: nat): Plan
    requires n <= |plan| && s < |plan| && d < |plan| && s != d && |plan[s]| >= 2 && plan[d] != []
  {
    if n == 0 then [] else RepairedTo(plan, s, d, n - 1) + Repaired(plan, s, d, n - 1)
  }

  lemma PoolTwo(a: Chain, b: Chain)
    ensures Pool([a, b]) == multiset(a) + multiset(b)
  {
    assert PoolTo([a, b], 2) == PoolTo([a, b], 1) + multiset(b);
    assert PoolTo([a, b], 1) == PoolTo([a, b], 0) + multiset(a);
  }

  function When<T>(here: bool, m: multiset<T>): multiset<T> {
    if here then m else multiset{}
  }

  lemma WhenNot<T>(m: multiset<T>)
    ensures When(false, m) == multiset{}
  {
  }

  lemma WhenStep<T>(k: nat, n: nat, m: multiset<T>)
    requires n > 0
    ensures When(k < n - 1, m) + When(n - 1 == k, m) == When(k < n, m)
  {
  }

  lemma RepairedPoolAt(plan: Plan, s: nat, d: nat, k: nat)
    requires k < |plan| && s < |plan| && d < |plan| && s != d && |plan[s]| >= 2 && plan[d] != []
    ensures Pool(Repaired(plan, s, d, k)) + When(k == d, multiset{plan[d][0]})
         == multiset(plan[k]) + When(k == s, multiset{plan[d][0]})
  {
    var c := plan[k];
    if k == s {
      PoolTwo(c[..|c| - 1], [c[|c| - 1], plan[d][0]]);
      assert c == c[..|c| - 1] + [c[|c| - 1]];
    } else if k == d {
      assert c == [c[0]] + c[1..];
      if c[1..] != [] { PoolSingle(c[1..]); }
    } else {
      PoolSingle(c);
    }
  }

  lemma RegroupFour<T>(a: multiset<T>, b: multiset<T>, x: multiset<T>, y: multiset<T>,
                       c: multiset<T>, d: multiset<T>, u: multiset<T>, v: multiset<T>)
    requires a + x == c + u && b + y == d + v
    ensures (a + b) + (x + y) == (c + d) + (u + v)
  {
    assert (a + b) + (x + y) == (a + x) + (b + y);
    assert (c + d) + (u + v) == (c + u) + (d + v);
  }

  /** Trips of the first n input chains, with the moved trip counted where it now is. */
  lemma {:induction false} RepairedPool(plan: Plan, s: nat, d: nat, n: nat)
    requires n <= |plan| && s < |plan| && d < |plan| && s != d && |plan[s]| >= 2 && plan[d] != []
    ensures Pool(RepairedTo(plan, s, d, n)) + When(d < n, multiset{plan[d][0]}) ==
      PoolTo(plan, n) + When(s < n, multiset{plan[d][0]})
  {
    hide Repaired, When;
    if n == 0 {
      WhenNot(multiset{plan[d][0]});
    } else {
      var x := plan[d][0];
      RepairedPool(plan, s, d, n - 1);
      RepairedPoolAt(plan, s, d, n - 1);
      PoolConcat(RepairedTo(plan, s, d, n - 1), Repaired(plan, s, d, n - 1));
      RegroupFour(Pool(RepairedTo(plan, s, d, n - 1)), Pool(Repaired(plan, s, d, n - 1)),
                  When(d < n - 1, multiset{x}), When(n - 1 == d, multiset{x}),
                  PoolTo(plan, n - 1), multiset(plan[n - 1]),
                  When(s < n - 1, multiset{x}), When(n - 1 == s, multiset{x}));
      WhenStep(d, n, multiset{x});
      WhenStep(s, n, multiset{x});
    }
  }

  lemma {:induction false} RepairedFeasible(plan: Plan, s: nat, d: nat, n: nat, p: Params)
    requires n <= |plan| && s < |plan| && d < |plan| && s != d && |plan[s]| >= 2 && plan[d] != []
    requires PlanFeasible(plan, p) && NoEmptyChain(plan)
    requires BlockFeasible(plan[s][..|plan[s]| - 1], p)
    requires BlockFeasible([plan[s][|plan[s]| - 1], plan[d][0]], p)
    requires BlockFeasible(plan[d][1..], p)
    ensures PlanFeasible(RepairedTo(plan, s, d, n), p) && NoEmptyChain(RepairedTo(plan, s, d, n))
    ensures |RepairedTo(plan, s, d, n)| == n + (if s < n then 1 else 0) - (if d < n && |plan[d]| == 1 then 1 else 0)
  {
    if n > 0 {
      RepairedFeasible(plan, s, d, n - 1, p);
      assert BlockFeasible(plan[n - 1], p) && plan[n - 1] != [];
    }
  }

  /** The repair keeps trips and feasibility and adds at most one block. */
  lemma RepairedOk(plan: Plan, s: nat, d: nat, p: Params)
    requires PlanFeasible(plan, p) && NoEmptyChain(plan)
    requires s < |plan| && d < |plan| && s != d && |plan[s]| >= 2
    requires BlockFeasible(plan[s][..|plan[s]| - 1], p)
    requires BlockFeasible([plan[s][|plan[s]| - 1], plan[d][0]], p)
    requires BlockFeasible(plan[d][1..], p)
    ensures Rearranged(plan, RepairedTo(plan, s, d, |plan|), p)
    ensures |plan| <= Vehicles(RepairedTo(plan, s, d, |plan|)) <= |plan| + 1
  {
    var after := RepairedTo(plan, s, d, |plan|);
    RepairedPool(plan, s, d, |plan|);
    RepairedFeasible(plan, s, d, |plan|, p);
    CancelOne(Pool(after), Pool(plan), plan[d][0]);
    DropEmptyKeeps(after, p);
  }
}
