// Vehicle blocks as the optimizer keeps them: objects whose trip list and id are reassigned in place.
module Blocks {
  import opened Domain
  import opened Plans
  import opened Sorting

  class Block {
    var id: int
    var trips: Chain

    constructor (id: int, trips: Chain)
      ensures this.id == id && this.trips == trips
    {
      this.id := id;
      this.trips := trips;
    }

    /** Start of the first trip; 0 for an empty block. */
    function StartTime(): int
      reads this
    {
      if trips == [] then 0 else trips[0].start
    }
  }

  ghost function Objs(bs: seq<Block>): set<Block> {
    set b | b in bs
  }

  /** The chains of the first n blocks. */
  function ViewTo(bs: seq<Block>, n: nat): (v: Plan)
    requires n <= |bs|
    reads Objs(bs)`trips
    ensures |v| == n && forall i :: 0 <= i < n ==> v[i] == bs[i].trips
  {
    if n == 0 then [] else ViewTo(bs, n - 1) + [bs[n - 1].trips]
  }

  /** The plan a list of blocks currently holds. */
  function View(bs: seq<Block>): (v: Plan)
    reads Objs(bs)`trips
    ensures |v| == |bs| && forall i :: 0 <= i < |bs| ==> v[i] == bs[i].trips
  {
    ViewTo(bs, |bs|)
  }

  ghost predicate Distinct(bs: seq<Block>) {
    forall i, j :: 0 <= i < j < |bs| ==> bs[i] != bs[j]
  }

  ghost predicate DistinctBlockIds(bs: seq<Block>)
    reads Objs(bs)`id
  {
    forall i, j :: 0 <= i < |bs| && 0 <= j < |bs| && bs[i].id == bs[j].id ==> i == j
  }

  /** The ids of the first n blocks. */
  ghost function BlockIdsTo(bs: seq<Block>, n: nat): (ids: seq<int>)
    requires n <= |bs|
    reads Objs(bs)`id
    ensures |ids| == n && forall i :: 0 <= i < n ==> ids[i] == bs[i].id
  {
    if n == 0 then [] else BlockIdsTo(bs, n - 1) + [bs[n - 1].id]
  }

  ghost function BlockIds(bs: seq<Block>): (ids: seq<int>)
    reads Objs(bs)`id
    ensures |ids| == |bs| && forall i :: 0 <= i < |bs| ==> ids[i] == bs[i].id
  {
    BlockIdsTo(bs, |bs|)
  }

  /** New blocks with the same ids and trips: the shallow and the deep copies of the source alike. */
  method CopyBlocks(bs: seq<Block>) returns (r: seq<Block>)
    ensures View(r) == old(View(bs))
    ensures forall i :: 0 <= i < |bs| ==> r[i].id == bs[i].id
    ensures Distinct(r) && fresh(Objs(r))
  {
    r := [];
    for k := 0 to |bs|
      invariant |r| == k
      invariant forall i :: 0 <= i < k ==> fresh(r[i]) && r[i].trips == bs[i].trips && r[i].id == bs[i].id
      invariant Distinct(r)
    {
      var b := new Block(bs[k].id, bs[k].trips);
      r := r + [b];
    }
  }

  method Renumber(ordered: seq<Block>)
    requires Distinct(ordered)
    modifies Objs(ordered)`id
    ensures View(ordered) == old(View(ordered))
    ensures DistinctBlockIds(ordered)
    ensures forall i :: 0 <= i < |ordered| ==> ordered[i].id == i + 1
  {
    for k := 0 to |ordered|
      invariant forall i :: 0 <= i < k ==> ordered[i].id == i + 1
    {
      ordered[k].id := k + 1;
    }
  }

  // ---- reordering ----

  /** Start of a chain as `Block.start_time` reports it. */
  function ChainStart(c: Chain): int {
    if c == [] then 0 else c[0].start
  }

  ghost predicate SortedByStart(plan: Plan) {
    forall i, j :: 0 <= i < j < |plan| ==> ChainStart(plan[i]) <= ChainStart(plan[j])
  }

  lemma {:induction false} DistinctCount(bs: seq<Block>, b: Block)
    requires Distinct(bs)
    ensures multiset(bs)[b] <= 1
  {
    if bs != [] {
      DistinctCount(bs[1..], b);
      assert bs == [bs[0]] + bs[1..];
      if b == bs[0] { assert b !in bs[1..]; }
    }
  }

  lemma DistinctPermute(bs: seq<Block>, r: seq<Block>)
    requires Distinct(bs) && multiset(r) == multiset(bs)
    ensures Distinct(r)
  {
    forall i, j | 0 <= i < j < |r| ensures r[i] != r[j] {
      DistinctCount(bs, r[i]);
      Unplug(r, i);
      assert Without(r, i)[j - 1] == r[j];
    }
  }

  lemma UnplugView(bs: seq<Block>, k: nat)
    requires k < |bs|
    ensures multiset(View(bs)) == multiset(View(Without(bs, k))) + multiset{bs[k].trips}
  {
    Unplug(View(bs), k);
    assert Without(View(bs), k) == View(Without(bs, k));
  }

  /** Reordering the block objects reorders the chains they hold. */
  lemma {:induction false} ViewPermute(bs: seq<Block>, r: seq<Block>)
    requires multiset(bs) == multiset(r)
    ensures multiset(View(bs)) == multiset(View(r))
    decreases |bs|
  {
    assert |r| == |multiset(r)|;
    if bs != [] {
      assert bs[0] in multiset(r);
      var k :| 0 <= k < |r| && r[k] == bs[0];
      Unplug(bs, 0);
      Unplug(r, k);
      CancelOne(multiset(Without(bs, 0)), multiset(Without(r, k)), bs[0]);
      ViewPermute(Without(bs, 0), Without(r, k));
      UnplugView(bs, 0);
      UnplugView(r, k);
    }
  }

  function SortKey(b: Block, withId: bool): seq<int>
    reads b
  {
    if withId then [b.StartTime(), b.id] else [b.StartTime()]
  }

  lemma SortKeyOrder(b: Block, c: Block, withId: bool)
    ensures LexLe(SortKey(b, withId), SortKey(c, withId)) ==> b.StartTime() <= c.StartTime()
    ensures !withId && b.StartTime() <= c.StartTime() ==> LexLe(SortKey(b, withId), SortKey(c, withId))
  {
    LexSingle(b.StartTime(), c.StartTime());
    LexPair(b.StartTime(), b.id, c.StartTime(), c.id);
  }

  ghost predicate KeyedBy(keyed: seq<Keyed<Block>>, withId: bool)
    reads set k | k in keyed :: k.item
  {
    forall k :: k in keyed ==> k.key == SortKey(k.item, withId)
  }

  function KeyBlocks(bs: seq<Block>, withId: bool): (keyed: seq<Keyed<Block>>)
    reads Objs(bs)
    ensures Items(keyed) == bs && KeyedBy(keyed, withId)
  {
    seq(|bs|, i requires 0 <= i < |bs| reads Objs(bs) => Keyed(SortKey(bs[i], withId), bs[i]))
  }

  /** `blocks.sort(key=start_time)`, or by (start_time, id). */
  function SortBlocks(bs: seq<Block>, withId: bool): (r: seq<Block>)
    reads Objs(bs)
    ensures Objs(r) == Objs(bs)
  {
    var keyed := KeyBlocks(bs, withId);
    SortKeepsItems(keyed);
    SameObjs(bs, Items(Sort(keyed)));
    Items(Sort(keyed))
  }

  /** Sorting permutes the block objects, and so the chains; a list already in start order stays as it is. */
  lemma SortBlocksFacts(bs: seq<Block>, withId: bool)
    ensures var r := SortBlocks(bs, withId);
      && multiset(r) == multiset(bs)
      && Objs(r) == Objs(bs)
      && (Distinct(bs) ==> Distinct(r))
      && multiset(View(r)) == multiset(View(bs))
      && SortedByStart(View(r))
      && (SortedByStart(View(bs)) && !withId ==> r == bs)
  {
    var keyed := KeyBlocks(bs, withId);
    var r := SortBlocks(bs, withId);
    SortKeepsItems(keyed);
    SortedView(bs, withId);
    ViewPermute(bs, r);
    if Distinct(bs) { DistinctPermute(bs, r); }
    SameObjs(bs, r);
    if SortedByStart(View(bs)) && !withId {
      AlreadySorted(bs, keyed);
    }
  }

  lemma SameObjs(bs: seq<Block>, r: seq<Block>)
    requires multiset(bs) == multiset(r)
    ensures Objs(bs) == Objs(r)
  {
    forall b ensures b in bs <==> b in r {
      assert b in multiset(r) <==> b in multiset(bs);
    }
  }

  lemma SortedView(bs: seq<Block>, withId: bool)
    ensures SortedByStart(View(SortBlocks(bs, withId)))
  {
    hide KeyBlocks, ViewTo, Sort, SortKey, LexLe;
    var keyed := KeyBlocks(bs, withId);
    var sorted, r := Sort(keyed), SortBlocks(bs, withId);
    SortSorts(keyed);
    forall k | k in sorted ensures k.key == SortKey(k.item, withId) {
      assert k in multiset(keyed);
    }
    forall i, j | 0 <= i < j < |r| ensures ChainStart(View(r)[i]) <= ChainStart(View(r)[j]) {
      assert sorted[i] in sorted && sorted[j] in sorted;
      SortKeyOrder(r[i], r[j], withId);
    }
  }

  lemma AlreadySorted(bs: seq<Block>, keyed: seq<Keyed<Block>>)
    requires Items(keyed) == bs && KeyedBy(keyed, false) && SortedByStart(View(bs))
    ensures Sort(keyed) == keyed
  {
    forall i, j | 0 <= i < j < |keyed| ensures LexLe(keyed[i].key, keyed[j].key) {
      assert ChainStart(View(bs)[i]) <= ChainStart(View(bs)[j]);
      assert keyed[i] in keyed && keyed[j] in keyed;
      SortKeyOrder(bs[i], bs[j], false);
    }
    SortOfSorted(keyed);
  }

  function WithTripsTo(bs: seq<Block>, n: nat): (r: seq<Block>)
    requires n <= |bs|
    reads Objs(bs)
    ensures forall b :: b in r ==> exists i :: 0 <= i < n && bs[i] == b
  {
    if n == 0 then []
    else if bs[n - 1].trips == [] then WithTripsTo(bs, n - 1)
    else WithTripsTo(bs, n - 1) + [bs[n - 1]]
  }

  /** `[b for b in blocks if b.trips]`. */
  function WithTrips(bs: seq<Block>): (r: seq<Block>)
    reads Objs(bs)
    ensures Objs(r) <= Objs(bs)
  {
    WithTripsTo(bs, |bs|)
  }

  lemma {:induction false} WithTripsDistinct(bs: seq<Block>, n: nat)
    requires n <= |bs| && Distinct(bs)
    ensures Distinct(WithTripsTo(bs, n))
  {
    if n > 0 {
      WithTripsDistinct(bs, n - 1);
      var r := WithTripsTo(bs, n - 1);
      forall i | 0 <= i < |r| ensures r[i] != bs[n - 1] {
        assert r[i] in r;
      }
    }
  }

  lemma {:induction false} WithTripsViewTo(bs: seq<Block>, n: nat)
    requires n <= |bs|
    ensures View(WithTripsTo(bs, n)) == DropEmptyTo(View(bs), n)
    ensures NoEmptyChain(View(bs)) ==> WithTripsTo(bs, n) == bs[..n]
  {
    if n > 0 {
      WithTripsViewTo(bs, n - 1);
      assert View(bs)[n - 1] == bs[n - 1].trips;
    }
  }

  lemma {:induction false} WithTripsObjs(bs: seq<Block>, n: nat)
    requires n <= |bs|
    ensures forall i :: 0 <= i < n && bs[i].trips != [] ==> bs[i] in WithTripsTo(bs, n)
  {
    if n > 0 { WithTripsObjs(bs, n - 1); }
  }

  lemma WithTripsView(bs: seq<Block>)
    ensures View(WithTrips(bs)) == DropEmpty(View(bs))
    ensures NoEmptyChain(View(bs)) ==> WithTrips(bs) == bs
    ensures Distinct(bs) ==> Distinct(WithTrips(bs))
  {
    WithTripsViewTo(bs, |bs|);
    if Distinct(bs) { WithTripsDistinct(bs, |bs|); }
    assert bs[..|bs|] == bs;
  }

  /** The non-empty blocks in (start, id) order. */
  function Ordered(bs: seq<Block>): seq<Block>
    reads Objs(bs)
  {
    SortBlocks(WithTrips(bs), true)
  }

  lemma OrderedFacts(bs: seq<Block>)
    requires Distinct(bs)
    ensures Distinct(Ordered(bs)) && Objs(Ordered(bs)) <= Objs(bs)
    ensures multiset(View(Ordered(bs))) == multiset(DropEmpty(View(bs)))
    ensures SortedByStart(View(Ordered(bs)))
  {
    WithTripsView(bs);
    SortBlocksFacts(WithTrips(bs), true);
  }

  /** `_renumber_blocks`: drops empty blocks, orders the others by (start, id), numbers them from 1 in place. */
  method RenumberBlocks(bs: seq<Block>) returns (r: seq<Block>)
    requires Distinct(bs)
    modifies Objs(bs)`id
    ensures r == old(Ordered(bs)) && View(r) == old(View(Ordered(bs)))
    ensures Distinct(r) && Objs(r) <= Objs(bs)
    ensures multiset(View(r)) == multiset(DropEmpty(old(View(bs))))
    ensures SortedByStart(View(r))
    ensures DistinctBlockIds(r)
    ensures forall i :: 0 <= i < |r| ==> r[i].id == i + 1
    ensures forall b :: b in bs && b.trips != [] ==> b in r
  {
    r := Ordered(bs);
    WithTripsObjs(bs, |bs|);
    SortBlocksFacts(WithTrips(bs), true);
    forall b | b in bs && b.trips != [] ensures b in r {
      assert b in WithTrips(bs) && b in Objs(WithTrips(bs));
    }
    OrderedFacts(bs);
    Renumber(r);
  }

  // ---- the same order, seen on plans ----

  /** Stable order of a plan's chains by start time. */
  function SortPlan(plan: Plan): Plan {
    Items(Sort(KeyPlan(plan)))
  }

  function KeyPlan(plan: Plan): (keyed: seq<Keyed<Chain>>)
    ensures |keyed| == |plan| && forall i :: 0 <= i < |plan| ==> keyed[i] == Keyed([ChainStart(plan[i])], plan[i])
  {
    seq(|plan|, i requires 0 <= i < |plan| => Keyed([ChainStart(plan[i])], plan[i]))
  }

  lemma SortPlanIdempotent(plan: Plan)
    ensures SortPlan(SortPlan(plan)) == SortPlan(plan)
  {
    var sorted := Sort(KeyPlan(plan));
    forall k | k in sorted ensures k.key == [ChainStart(k.item)] {
      assert k in multiset(KeyPlan(plan));
    }
    assert KeyPlan(Items(sorted)) == sorted;
    SortSorts(KeyPlan(plan));
    SortOfSorted(sorted);
  }

  /** Same keys, and every block paired with the chain that `held` gives it. */
  ghost predicate Alike(s: seq<Keyed<Block>>, r: seq<Keyed<Chain>>, held: map<Block, Chain>) {
    && |s| == |r|
    && forall i :: 0 <= i < |s| ==> s[i].key == r[i].key && s[i].item in held && held[s[i].item] == r[i].item
  }

  lemma {:induction false} InsertAlike(
    x: Keyed<Block>, y: Keyed<Chain>, s: seq<Keyed<Block>>, r: seq<Keyed<Chain>>, held: map<Block, Chain>)
    requires Alike(s, r, held) && x.key == y.key && x.item in held && held[x.item] == y.item
    ensures Alike(Insert(x, s), Insert(y, r), held)
  {
    hide LexLe;
    if s == [] || LexLe(x.key, s[0].key) {
      assert Insert(x, s) == [x] + s && Insert(y, r) == [y] + r;
      AlikeFront(x, y, s, r, held);
      return;
    }
    var s', r' := Insert(x, s[1..]), Insert(y, r[1..]);
    InsertAlike(x, y, s[1..], r[1..], held);
    assert Insert(x, s) == [s[0]] + s' && Insert(y, r) == [r[0]] + r';
    hide Insert, Alike;
    AlikeFront(s[0], r[0], s', r', held);
  }

  lemma AlikeFront(
    x: Keyed<Block>, y: Keyed<Chain>, s: seq<Keyed<Block>>, r: seq<Keyed<Chain>>, held: map<Block, Chain>)
    requires Alike(s, r, held) && x.key == y.key && x.item in held && held[x.item] == y.item
    ensures Alike([x] + s, [y] + r, held)
  {
  }

  lemma {:induction false} SortAlike(s: seq<Keyed<Block>>, r: seq<Keyed<Chain>>, held: map<Block, Chain>)
    requires Alike(s, r, held)
    ensures Alike(Sort(s), Sort(r), held)
  {
    if s != [] {
      SortAlike(s[1..], r[1..], held);
      InsertAlike(s[0], r[0], Sort(s[1..]), Sort(r[1..]), held);
    }
  }

  lemma KeyAlike(bs: seq<Block>, held: map<Block, Chain>)
    requires forall b :: b in bs ==> b in held && held[b] == b.trips
    ensures Alike(KeyBlocks(bs, false), KeyPlan(View(bs)), held)
  {
    hide KeyBlocks, KeyPlan, ViewTo;
    var s := KeyBlocks(bs, false);
    forall i | 0 <= i < |s|
      ensures s[i].item == bs[i] && s[i].key == [ChainStart(bs[i].trips)]
    {
      assert Items(s)[i] == bs[i];
    }
  }

  lemma SortedBlocks(bs: seq<Block>)
    ensures SortBlocks(bs, false) == Items(Sort(KeyBlocks(bs, false)))
    ensures SortPlan(View(bs)) == Items(Sort(KeyPlan(View(bs))))
  {
  }

  /** The order of the blocks depends on the plan alone. */
  lemma SortBlocksView(bs: seq<Block>)
    ensures View(SortBlocks(bs, false)) == SortPlan(View(bs))
  {
    var held := map b | b in Objs(bs) :: b.trips;
    KeyAlike(bs, held);
    SortAlike(KeyBlocks(bs, false), KeyPlan(View(bs)), held);
    hide SortBlocks, SortPlan, KeyBlocks, KeyPlan, ViewTo, Sort, Items, Objs, LexLe;
    SortedBlocks(bs);
    var s, r := Sort(KeyBlocks(bs, false)), Sort(KeyPlan(View(bs)));
    var v, w := View(Items(s)), Items(r);
    forall i | 0 <= i < |v| ensures v[i] == w[i] {
      assert s[i].item in held;
    }
  }

  /** A vehicle-scheduling solution. */
  datatype VspSolution = VspSolution(blocks: seq<Block>, unassigned: seq<Trip>)
}
