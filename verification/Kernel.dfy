// The feasibility kernel without its caches: one connection, and one whole block.
module Kernel {
  import opened Wrappers
  import opened Domain

  function GapBetween(current: Trip, next: Trip): int {
    next.start - current.end
  }

  predicate ContiguousPair(current: Trip, next: Trip) {
    GapBetween(current, next) == 0 && current.group.Some? && current.group == next.group
  }

  /** May one vehicle run `next` right after `current`? */
  predicate EdgeFeasible(current: Trip, next: Trip, p: Connection) {
    var gap := GapBetween(current, next);
    if gap < 0 then
      false
    else if gap == 0 then
      && (ContiguousPair(current, next) || next.ContinuationOf(current))
      && (p.strictZeroGap ==> current.destination == next.origin)
    else if p.enforceMinInterval && gap < p.minBreak then
      false
    else
      var required := Max(p.minLayover, current.DeadheadTo(next.origin));
      if p.strictOperational || p.strictHard then gap >= required else gap + p.tolerance >= required
  }

  function Lines(c: Chain): set<int> {
    set t | t in c :: t.line
  }

  predicate WithinShift(c: Chain, p: Params)
    requires c != []
  {
    p.maxShift > 0 ==> c[|c| - 1].end - c[0].start <= p.maxShift
  }

  predicate EdgesFeasible(c: Chain, p: Connection) {
    forall i :: 0 <= i < |c| - 1 ==> EdgeFeasible(c[i], c[i + 1], p)
  }

  /** May one vehicle run the whole chain? Chains of at most one trip always pass. */
  predicate BlockFeasible(c: Chain, p: Params) {
    |c| <= 1 || (WithinShift(c, p) && (p.allowMultiLine || |Lines(c)| <= 1) && EdgesFeasible(c, p.conn))
  }

  // ---- what a feasible chain looks like ----

  /** A non-empty chain passes the line check iff every trip runs the first trip's line. */
  lemma OneLine(c: Chain)
    requires c != []
    ensures |Lines(c)| <= 1 <==> forall t :: t in c ==> t.line == c[0].line
  {
    assert c[0].line in Lines(c);
    if forall t :: t in c ==> t.line == c[0].line {
      assert Lines(c) == {c[0].line};
    } else {
      var t :| t in c && t.line != c[0].line;
      assert t.line in Lines(c) - {c[0].line};
      assert |Lines(c)| == |Lines(c) - {c[0].line}| + 1;
    }
  }

  /** Each trip of a feasible chain ends before any later one starts. */
  lemma {:induction false} FeasibleOrdered(c: Chain, p: Params, i: nat, j: nat)
    requires WellTimed(c) && BlockFeasible(c, p)
    requires i < j < |c|
    ensures c[i].end <= c[j].start
    decreases j
  {
    assert EdgeFeasible(c[j - 1], c[j], p.conn);
    if i < j - 1 {
      FeasibleOrdered(c, p, i, j - 1);
    }
  }

  /** Start times never run backwards inside a feasible chain, and end times neither. */
  lemma {:induction false} FeasibleSpan(c: Chain, p: Params, i: nat, j: nat)
    requires WellTimed(c) && BlockFeasible(c, p)
    requires i <= j < |c|
    ensures c[i].start <= c[j].start && c[i].end <= c[j].end
  {
    if i < j { FeasibleOrdered(c, p, i, j); }
  }

  /** Any stretch of a feasible chain is feasible. */
  lemma {:induction false} SliceFeasible(c: Chain, p: Params, lo: nat, hi: nat)
    requires WellTimed(c) && BlockFeasible(c, p)
    requires lo <= hi <= |c|
    ensures WellTimed(c[lo..hi]) && BlockFeasible(c[lo..hi], p)
  {
    var s := c[lo..hi];
    assert WellTimed(s);
    if |s| > 1 {
      FeasibleSpan(c, p, 0, lo);
      FeasibleSpan(c, p, hi - 1, |c| - 1);
      assert p.allowMultiLine || |Lines(s)| <= 1 by {
        if !p.allowMultiLine {
          OneLine(c);
          OneLine(s);
          assert s[0] in c;
          assert forall t :: t in s ==> t in c;
        }
      }
      forall i | 0 <= i < |s| - 1 ensures EdgeFeasible(s[i], s[i + 1], p.conn) {
        assert EdgeFeasible(c[lo + i], c[lo + i + 1], p.conn);
      }
    }
  }

  /** Joining two feasible chains: only the joint, the shared line and the whole span need checking. */
  lemma {:induction false} JoinFeasible(a: Chain, b: Chain, p: Params)
    requires a != [] && b != []
    requires BlockFeasible(a, p) && BlockFeasible(b, p)
    ensures BlockFeasible(a + b, p) <==>
      && EdgeFeasible(a[|a| - 1], b[0], p.conn)
      && (p.allowMultiLine || Lines(a) == Lines(b))
      && (p.maxShift > 0 ==> b[|b| - 1].end - a[0].start <= p.maxShift)
  {
    var c := a + b;
    JoinEdges(a, b, p.conn);
    JoinLines(a, b);
    SmallLines(a, p);
    SmallLines(b, p);
  }

  lemma SmallLines(c: Chain, p: Params)
    requires c != [] && BlockFeasible(c, p)
    ensures p.allowMultiLine || |Lines(c)| <= 1
    ensures EdgesFeasible(c, p.conn)
  {
    if |c| == 1 { assert Lines(c) == {c[0].line}; }
  }

  lemma JoinLines(a: Chain, b: Chain)
    requires a != [] && b != []
    ensures |Lines(a)| <= 1 && |Lines(b)| <= 1 ==> (|Lines(a + b)| <= 1 <==> Lines(a) == Lines(b))
  {
    assert Lines(a + b) == Lines(a) + Lines(b);
    assert a[0].line in Lines(a) && b[0].line in Lines(b);
    if |Lines(a)| <= 1 && |Lines(b)| <= 1 {
      OneLine(a);
      OneLine(b);
      assert Lines(a) == {a[0].line} && Lines(b) == {b[0].line};
      if a[0].line != b[0].line {
        assert |{a[0].line} + {b[0].line}| == 2;
      }
    }
  }

  lemma JoinEdges(a: Chain, b: Chain, p: Connection)
    requires a != [] && b != []
    ensures EdgesFeasible(a + b, p) <==> EdgesFeasible(a, p) && EdgeFeasible(a[|a| - 1], b[0], p) && EdgesFeasible(b, p)
  {
    var c := a + b;
    if EdgesFeasible(c, p) {
      forall i | 0 <= i < |a| - 1 ensures EdgeFeasible(a[i], a[i + 1], p) {
        assert EdgeFeasible(c[i], c[i + 1], p);
      }
      assert EdgeFeasible(c[|a| - 1], c[|a|], p);
      forall i | 0 <= i < |b| - 1 ensures EdgeFeasible(b[i], b[i + 1], p) {
        assert EdgeFeasible(c[|a| + i], c[|a| + i + 1], p);
      }
    }
  }

  /** Two distinct positions of a feasible chain never run at the same minute. */
  lemma FeasibleExclusive(c: Chain, p: Params, i: nat, j: nat, t: int)
    requires WellTimed(c) && BlockFeasible(c, p)
    requires i < |c| && j < |c|
    requires c[i].start <= t < c[i].end && c[j].start <= t < c[j].end
    ensures i == j
  {
    if i < j {
      FeasibleOrdered(c, p, i, j);
    } else if j < i {
      FeasibleOrdered(c, p, j, i);
    }
  }
}
