// Where one trip fits into a block (`_feasible_insertion`).
module Insertion {
  import opened Wrappers
  import opened Domain
  import opened Kernel
  import opened Sorting
  import Plans

  function InsertAt(c: Chain, pos: nat, t: Trip): Chain
    requires pos <= |c|
  {
    c[..pos] + [t] + c[pos..]
  }

  ghost predicate Fits(c: Chain, pos: int, t: Trip, p: Params) {
    0 <= pos <= |c| && BlockFeasible(InsertAt(c, pos, t), p)
  }

  /** A trip fits at most one position. */
  lemma OnePosition(c: Chain, t: Trip, p: Params, a: nat, b: nat)
    requires WellTimed(c) && t.start < t.end
    requires a <= |c| && b <= |c| && Fits(c, a, t, p) && Fits(c, b, t, p)
    ensures a == b
  {
    if a < b {
      NotBoth(c, t, p, a, b);
      assert false;
    } else if b < a {
      NotBoth(c, t, p, b, a);
      assert false;
    }
  }

  lemma NotBoth(c: Chain, t: Trip, p: Params, a: nat, b: nat)
    requires WellTimed(c) && t.start < t.end
    requires a < b <= |c| && Fits(c, a, t, p)
    ensures !Fits(c, b, t, p)
  {
    var early := InsertAt(c, a, t);
    assert WellTimed(early);
    assert early[a] == t && early[a + 1] == c[a];
    FeasibleOrdered(early, p, a, a + 1);
    if Fits(c, b, t, p) {
      var late := InsertAt(c, b, t);
      assert WellTimed(late);
      assert late[a] == c[a] && late[b] == t;
      FeasibleOrdered(late, p, a, b);
      assert false;
    }
  }

  // ---- idle minutes ----

  function DriveTo(c: Chain, n: nat): int
    requires n <= |c|
  {
    if n == 0 then 0 else DriveTo(c, n - 1) + (c[n - 1].end - c[n - 1].start)
  }

  /** `Block.idle_minutes`: the span of the block less its driving. */
  function IdleMinutes(c: Chain): int {
    if c == [] then 0 else c[|c| - 1].end - c[0].start - DriveTo(c, |c|)
  }

  lemma {:induction false} DriveInsert(c: Chain, pos: nat, t: Trip, n: nat)
    requires pos <= |c| && n <= |c|
    ensures n < pos ==> DriveTo(InsertAt(c, pos, t), n) == DriveTo(c, n)
    ensures n >= pos ==> DriveTo(InsertAt(c, pos, t), n + 1) == DriveTo(c, n) + (t.end - t.start)
  {
    var d := InsertAt(c, pos, t);
    if n > 0 {
      DriveInsert(c, pos, t, n - 1);
      if n < pos {
        assert d[n - 1] == c[n - 1];
      } else if n == pos {
        assert d[n - 1] == c[n - 1] && d[n] == t;
        assert DriveTo(d, n) == DriveTo(c, n);
      } else {
        assert d[n] == c[n - 1];
      }
    } else if pos == 0 {
      assert d[0] == t;
      assert DriveTo(d, 1) == DriveTo(d, 0) + (t.end - t.start);
    }
  }

  /** The gap sum the code prices at one position. */
  function AddedGap(c: Chain, pos: nat, t: Trip): int
    requires c != [] && pos <= |c|
  {
    if pos == 0 then GapBetween(t, c[0])
    else if pos == |c| then GapBetween(c[|c| - 1], t)
    else
      var oldGap := GapBetween(c[pos - 1], c[pos]);
      Max(0, GapBetween(c[pos - 1], t)) + Max(0, GapBetween(t, c[pos])) - Max(0, oldGap)
  }

  /** `compute_idle_cost` of the clipped gap sum. */
  function Price(c: Chain, pos: nat, t: Trip, idleRate: real): real
    requires c != [] && pos <= |c|
  {
    Max(0, AddedGap(c, pos, t)) as real * idleRate
  }

  /** Priced is the growth of the block's idle minutes, never negative; inside the block it is nothing. */
  lemma PricedGap(c: Chain, pos: nat, t: Trip, p: Params)
    requires c != [] && WellTimed(c) && t.start < t.end && Fits(c, pos, t, p)
    ensures Max(0, AddedGap(c, pos, t)) == Max(0, IdleMinutes(InsertAt(c, pos, t)) - IdleMinutes(c))
    ensures 0 < pos < |c| ==> Max(0, AddedGap(c, pos, t)) == 0
  {
    var d := InsertAt(c, pos, t);
    DriveInsert(c, pos, t, |c|);
    assert |d| == |c| + 1;
    if 0 < pos {
      assert d[0] == c[0] && d[pos - 1] == c[pos - 1] && d[pos] == t;
      assert EdgeFeasible(d[pos - 1], d[pos], p.conn);
    } else {
      assert d[0] == t;
    }
    if pos < |c| {
      assert d[|c|] == c[|c| - 1] && d[pos] == t && d[pos + 1] == c[pos];
      assert EdgeFeasible(d[pos], d[pos + 1], p.conn);
    } else {
      assert d[|c|] == t;
    }
  }

  // ---- the positions tried ----

  function KeyGaps(c: Chain): seq<Keyed<nat>>
    requires c != []
  {
    seq(|c| - 1, i requires 0 <= i < |c| - 1 => Keyed([GapBetween(c[i], c[i + 1])], i + 1))
  }

  function FirstPositions(s: seq<Keyed<nat>>, n: nat): set<nat> {
    set i | 0 <= i < n && i < |s| :: s[i].item
  }

  function UpTo(n: nat): (s: set<nat>)
    ensures |s| == n + 1 && forall i: nat :: i in s <==> i <= n
  {
    if n == 0 then {0} else UpTo(n - 1) + {n}
  }

  /** Every position of a short block; both ends and the five smallest gaps of a long one. */
  function Sampled(c: Chain): set<nat>
    requires c != []
  {
    if |c| <= 10 then UpTo(|c|)
    else {0, |c|} + FirstPositions(Sort(KeyGaps(c)), 5)
  }

  lemma SampledInRange(c: Chain)
    requires c != []
    ensures forall pos: nat :: pos in Sampled(c) ==> pos <= |c|
  {
    hide Sort, KeyGaps, UpTo, FirstPositions;
    var s: seq<Keyed<nat>> := Sort<nat>(KeyGaps(c));
    if |c| > 10 {
      forall k | k in s ensures k.item <= |c| {
        assert k in multiset(s);
        KeyGapsInRange(c, k);
      }
      FirstInRange(s, 5, |c|);
    }
  }

  lemma FirstInRange(s: seq<Keyed<nat>>, n: nat, most: nat)
    requires forall k :: k in s ==> k.item <= most
    ensures forall pos: nat :: pos in FirstPositions(s, n) ==> pos <= most
  {
    forall pos: nat | pos in FirstPositions(s, n) ensures pos <= most {
      var i :| 0 <= i < n && i < |s| && s[i].item == pos;
      assert s[i] in s;
    }
  }

  lemma KeyGapsInRange(c: Chain, k: Keyed<nat>)
    requires c != []
    ensures k in multiset(KeyGaps(c)) ==> k.item <= |c|
  {
  }

  lemma SampledShort(c: Chain)
    ensures 0 < |c| <= 10 ==> forall i: nat :: i in Sampled(c) <==> i <= |c|
  {
  }

  /** The gap into which an inner position falls. */
  function InnerGap(c: Chain, pos: nat): int
    requires 0 < pos < |c|
  {
    GapBetween(c[pos - 1], c[pos])
  }

  /** Inner positions whose gap is smaller, or equal and earlier. */
  ghost function Ahead(c: Chain, q: nat): set<nat>
    requires 0 < q < |c|
  {
    set i: nat | 0 < i < |c| && (InnerGap(c, i) < InnerGap(c, q) || (InnerGap(c, i) == InnerGap(c, q) && i < q))
  }

  predicate KeyBefore(x: Keyed<nat>, y: Keyed<nat>) {
    |x.key| == 1 == |y.key| && (x.key[0] < y.key[0] || (x.key[0] == y.key[0] && x.item < y.item))
  }

  ghost predicate ByGap(s: seq<Keyed<nat>>) {
    forall i, j :: 0 <= i < j < |s| ==> KeyBefore(s[i], s[j])
  }

  ghost predicate ItemsRise(s: seq<Keyed<nat>>) {
    && (forall i :: 0 <= i < |s| ==> |s[i].key| == 1)
    && (forall i, j :: 0 <= i < j < |s| ==> s[i].item < s[j].item)
  }

  lemma {:induction false} InsertByGap(x: Keyed<nat>, s: seq<Keyed<nat>>)
    requires ByGap(s) && |x.key| == 1 && forall k :: k in s ==> |k.key| == 1 && x.item < k.item
    ensures ByGap(Insert<nat>(x, s))
  {
    if s == [] { return; }
    assert s[0] in s && x.key == [x.key[0]] && s[0].key == [s[0].key[0]];
    LexSingle(x.key[0], s[0].key[0]);
    hide LexLe;
    if LexLe(x.key, s[0].key) {
      forall j | 0 <= j < |s| ensures KeyBefore(x, s[j]) {
        assert s[j] in s && (j > 0 ==> KeyBefore(s[0], s[j]));
      }
    } else {
      var rest: seq<Keyed<nat>> := Insert<nat>(x, s[1..]);
      InsertByGap(x, s[1..]);
      forall j | 0 <= j < |rest| ensures KeyBefore(s[0], rest[j]) {
        assert rest[j] in multiset(rest);
        if rest[j] != x {
          var i :| 0 <= i < |s[1..]| && s[1..][i] == rest[j];
          assert KeyBefore(s[0], s[i + 1]);
        }
      }
    }
  }

  /** Sorting positions listed in order breaks ties by position. */
  lemma {:induction false} SortByGap(s: seq<Keyed<nat>>)
    requires ItemsRise(s)
    ensures ByGap(Sort<nat>(s))
  {
    if s != [] {
      SortByGap(s[1..]);
      forall k | k in Sort<nat>(s[1..]) ensures |k.key| == 1 && s[0].item < k.item {
        assert k in multiset(s[1..]);
        var i :| 0 <= i < |s[1..]| && s[1..][i] == k;
        assert s[i + 1] == k;
      }
      InsertByGap(s[0], Sort<nat>(s[1..]));
    }
  }

  lemma {:induction false} FirstPositionsCount(s: seq<Keyed<nat>>, n: nat)
    requires n <= |s| && forall i, j :: 0 <= i < j < |s| ==> s[i].item != s[j].item
    ensures |FirstPositions(s, n)| == n
  {
    if n == 0 {
      assert FirstPositions(s, 0) == {};
    } else {
      FirstPositionsCount(s, n - 1);
      assert FirstPositions(s, n) == FirstPositions(s, n - 1) + {s[n - 1].item};
    }
  }

  lemma GapKey(c: Chain, k: Keyed<nat>)
    requires c != []
    ensures k in KeyGaps(c) <==> 0 < k.item < |c| && k.key == [InnerGap(c, k.item)]
  {
    if 0 < k.item < |c| && k.key == [InnerGap(c, k.item)] {
      assert KeyGaps(c)[k.item - 1] == k;
    }
  }

  /** The inner positions in (gap, position) order, each once. */
  ghost predicate Ranked(c: Chain, s: seq<Keyed<nat>>) {
    && ByGap(s)
    && (forall i :: 0 <= i < |s| ==> GapEntry(c, s[i]))
    && (forall q: nat :: 0 < q < |c| ==> Occurs(s, q))
  }

  ghost predicate Occurs(s: seq<Keyed<nat>>, q: nat) {
    exists i :: 0 <= i < |s| && s[i].item == q
  }

  predicate GapEntry(c: Chain, k: Keyed<nat>) {
    0 < k.item < |c| && k.key == [InnerGap(c, k.item)]
  }

  lemma SortedGapsRanked(c: Chain)
    requires c != []
    ensures Ranked(c, Sort<nat>(KeyGaps(c)))
  {
    var keyed: seq<Keyed<nat>> := KeyGaps(c);
    var s: seq<Keyed<nat>> := Sort<nat>(keyed);
    SortByGap(keyed);
    assert multiset(s) == multiset(keyed);
    hide Sort, KeyGaps, ByGap, GapEntry, Occurs;
    forall i | 0 <= i < |s| ensures GapEntry(c, s[i]) {
      assert s[i] in multiset(s);
      EntryIs(c, s[i]);
    }
    forall q: nat | 0 < q < |c| ensures Occurs(s, q) {
      GapOccurs(c, s, q);
    }
  }

  lemma EntryIs(c: Chain, k: Keyed<nat>)
    requires c != [] && k in multiset(KeyGaps(c))
    ensures GapEntry(c, k)
  {
    GapKey(c, k);
  }

  lemma GapOccurs(c: Chain, s: seq<Keyed<nat>>, q: nat)
    requires 0 < q < |c| && multiset(s) == multiset(KeyGaps(c))
    ensures Occurs(s, q)
  {
    var k: Keyed<nat> := KeyGaps(c)[q - 1];
    assert k.item == q && k in multiset(KeyGaps(c));
    hide KeyGaps;
    var i := Plans.PlaceOf(s, k);
  }

  /** The rank of an inner position is the number of positions ahead of it. */
  lemma RankIs(c: Chain, s: seq<Keyed<nat>>, q: nat, r: nat)
    requires Ranked(c, s) && 0 < q < |c| && r < |s| && s[r].item == q
    ensures |Ahead(c, q)| == r
    ensures q in FirstPositions(s, 5) <==> r < 5
  {
    forall i, j | 0 <= i < j < |s| ensures s[i].item != s[j].item {
      assert KeyBefore(s[i], s[j]) && GapEntry(c, s[i]) && GapEntry(c, s[j]);
    }
    assert forall i :: 0 <= i < r ==> GapEntry(c, s[i]);
    forall pos: nat ensures pos in Ahead(c, q) <==> pos in FirstPositions(s, r) {
      if 0 < pos < |c| {
        assert Occurs(s, pos);
        var i :| 0 <= i < |s| && s[i].item == pos;
        assert GapEntry(c, s[i]) && GapEntry(c, s[r]);
        if i < r { assert KeyBefore(s[i], s[r]); }
        if r < i { assert KeyBefore(s[r], s[i]); }
      }
    }
    assert Ahead(c, q) == FirstPositions(s, r);
    FirstPositionsCount(s, r);
  }

  /** A long block tries both ends, and an inner position exactly when fewer than five are ahead of it. */
  lemma SampledExact(c: Chain, q: nat)
    requires |c| > 10 && q <= |c|
    ensures q in Sampled(c) <==> q == 0 || q == |c| || |Ahead(c, q)| < 5
  {
    if 0 < q < |c| {
      SortedGapsRanked(c);
      hide Sort, KeyGaps, Ahead, FirstPositions;
      var s: seq<Keyed<nat>> := Sort<nat>(KeyGaps(c));
      assert Occurs(s, q);
      var r :| 0 <= r < |s| && s[r].item == q;
      RankIs(c, s, q, r);
    }
  }

  lemma TriedExact(c: Chain, q: nat)
    requires c != [] && q <= |c|
    ensures q in Sampled(c) <==> |c| <= 10 || q == 0 || q == |c| || |Ahead(c, q)| < 5
  {
    if |c| > 10 { SampledExact(c, q); }
  }

  /** Ten trips ten minutes apart, and an eleventh a hundred minutes later. */
  function TenThenOne(): (c: Chain)
    ensures |c| == 11
    ensures forall i :: 0 <= i < 10 ==> c[i] == Ride(i, 20 * i, 20 * i + 10)
    ensures c[10] == Ride(10, 290, 300)
  {
    seq(11, i requires 0 <= i < 11 => if i < 10 then Ride(i, 20 * i, 20 * i + 10) else Ride(10, 290, 300))
  }

  const LATE: Trip := Ride(99, 220, 230)

  const STANDARD: Params := Extract(DEFAULTS)

  lemma LateFits()
    ensures WellTimed(TenThenOne()) && BlockFeasible(TenThenOne(), STANDARD) && Fits(TenThenOne(), 10, LATE, STANDARD)
  {
    var c := TenThenOne();
    var d := InsertAt(c, 10, LATE);
    forall i | 0 <= i < 10 ensures EdgeFeasible(c[i], c[i + 1], STANDARD.conn) {}
    forall i | 0 <= i < 11 ensures EdgeFeasible(d[i], d[i + 1], STANDARD.conn) {
      if i < 9 {
        assert d[i] == c[i] && d[i + 1] == c[i + 1];
      } else if i == 9 {
        assert d[i] == c[9] && d[i + 1] == LATE;
      } else {
        assert d[i] == LATE && d[i + 1] == c[10];
      }
    }
    assert d[0] == c[0] && d[11] == c[10];
  }

  lemma EarlyAhead(c: Chain, early: set<nat>)
    requires c == TenThenOne() && forall i :: i in early ==> 0 < i < 10
    ensures early <= Ahead(c, 10)
  {
    assert InnerGap(c, 10) == 100;
    forall i | i in early ensures i in Ahead(c, 10) {
      assert InnerGap(c, i) == 10;
    }
  }

  lemma LateUntried()
    ensures 10 !in Sampled(TenThenOne())
  {
    var c := TenThenOne();
    var early: set<nat> := UpTo(5) - {0};
    hide Sampled, TenThenOne, Ahead, UpTo;
    SampledExact(c, 10);
    EarlyAhead(c, early);
    SubsetSize(early, Ahead(c, 10));
  }

  /** The search misses a trip that fits: it belongs in the long gap, and only short ones are tried. */
  lemma InsertionMisses()
    ensures BlockFeasible(TenThenOne(), STANDARD) && Fits(TenThenOne(), 10, LATE, STANDARD)
    ensures forall q: nat :: q in Sampled(TenThenOne()) ==> !Fits(TenThenOne(), q, LATE, STANDARD)
  {
    LateFits();
    LateUntried();
    hide Sampled, BlockFeasible, TenThenOne, InsertAt;
    SampledInRange(TenThenOne());
    forall q: nat | q in Sampled(TenThenOne()) ensures !Fits(TenThenOne(), q, LATE, STANDARD) {
      if Fits(TenThenOne(), q, LATE, STANDARD) {
        OnePosition(TenThenOne(), LATE, STANDARD, 10, q);
      }
    }
  }

  /** A long block has at least five positions that are never tried. */
  lemma SampleIsPartial(c: Chain)
    requires |c| > 10
    ensures |Sampled(c)| <= 7
    ensures exists pos: nat :: pos <= |c| && pos !in Sampled(c)
  {
    var s := Sort(KeyGaps(c));
    FirstPositionsSize(s, 5);
    var all := UpTo(|c|);
    if forall pos: nat :: pos <= |c| ==> pos in Sampled(c) {
      SubsetSize(all, Sampled(c));
      assert false;
    }
  }

  lemma {:induction false} SubsetSize<T>(a: set<T>, b: set<T>)
    requires a <= b
    ensures |a| <= |b|
  {
    if a != {} {
      var x :| x in a;
      SubsetSize(a - {x}, b - {x});
    }
  }

  lemma {:induction false} FirstPositionsSize(s: seq<Keyed<nat>>, n: nat)
    ensures |FirstPositions(s, n)| <= n
  {
    if n > 0 {
      FirstPositionsSize(s, n - 1);
      if n - 1 < |s| {
        assert FirstPositions(s, n) == FirstPositions(s, n - 1) + {s[n - 1].item};
      } else {
        assert FirstPositions(s, n) == FirstPositions(s, n - 1);
      }
    }
  }

  /** `_feasible_insertion`: the cheapest feasible position among the sampled ones. */
  method FeasibleInsertion(c: Chain, t: Trip, p: Params, idleRate: real) returns (ok: bool, pos: int, cost: real)
    ensures c == [] ==> ok && pos == 0 && cost == 0.0
    ensures ok && c != [] ==> Fits(c, pos, t, p) && pos in Sampled(c)
    ensures ok && c != [] ==> cost == Price(c, pos, t, idleRate)
    ensures ok && c != [] ==> forall q: nat :: q in Sampled(c) && Fits(c, q, t, p) ==> cost <= Price(c, q, t, idleRate)
    ensures !ok ==> pos == -1 && cost == 0.0
    ensures !ok ==> c != [] && forall q: nat :: q in Sampled(c) ==> !Fits(c, q, t, p)
    ensures !ok && |c| <= 10 ==> forall q: nat :: !Fits(c, q, t, p)
  {
    hide BlockFeasible, Price, InsertAt, Sampled;
    SampledShort(c);
    if c == [] {
      return true, 0, 0.0;
    }
    SampledInRange(c);
    var best := -1;
    var bestCost := 0.0;
    var sampled := Sampled(c);
    for q := 0 to |c| + 1
      invariant -1 <= best < q
      invariant best == -1 ==> bestCost == 0.0 && forall k: nat :: k < q && k in sampled ==> !Fits(c, k, t, p)
      invariant best != -1 ==> Fits(c, best, t, p) && best in sampled
      invariant best != -1 ==> bestCost == Price(c, best, t, idleRate)
      invariant best != -1 ==> forall k: nat :: k < q && k in sampled && Fits(c, k, t, p) ==>
        bestCost <= Price(c, k, t, idleRate)
    {
      if q in sampled && BlockFeasible(InsertAt(c, q, t), p) {
        var candidate := Price(c, q, t, idleRate);
        if best == -1 || candidate < bestCost {
          best, bestCost := q, candidate;
        }
      }
    }
    return best != -1, best, bestCost;
  }

  /** The verdict is positive iff the one fitting position is tried, and the price is the added idle time. */
  lemma InsertionVerdict(c: Chain, t: Trip, p: Params, idleRate: real, ok: bool, pos: int, q: nat)
    requires c != [] && WellTimed(c) && t.start < t.end
    requires ok ==> Fits(c, pos, t, p) && pos in Sampled(c)
    requires !ok ==> forall k: nat :: k in Sampled(c) ==> !Fits(c, k, t, p)
    requires Fits(c, q, t, p)
    ensures ok <==> q in Sampled(c)
    ensures ok <==> |c| <= 10 || q == 0 || q == |c| || |Ahead(c, q)| < 5
    ensures ok ==> pos == q
    ensures ok ==>
      Price(c, pos, t, idleRate) == Max(0, IdleMinutes(InsertAt(c, pos, t)) - IdleMinutes(c)) as real * idleRate
    ensures ok && 0 < pos < |c| ==> Price(c, pos, t, idleRate) == 0.0
  {
    hide BlockFeasible, InsertAt, IdleMinutes, AddedGap, Sampled, Ahead;
    TriedExact(c, q);
    if ok {
      OnePosition(c, t, p, pos, q);
      PricedGap(c, pos, t, p);
    }
  }
}
