// Stitching chunk boundaries (joint_opt_boundary): tail relocation, then one restricted swap pass.
module Boundary {
  import opened Wrappers
  import opened Domain
  import opened Kernel

  /** The connection check as this module calls it: explicit zeros are kept and no strict flag is passed. */
  function LooseConnection(raw: RawParams): Connection {
    Connection(GetOr(raw.minLayover, 8), GetOr(raw.minBreak, 30), raw.enforceMinInterval, GetOr(raw.tolerance, 0),
               false, false, false)
  }

  function LooseShift(raw: RawParams): int {
    GetOr(raw.maxShift, 960)
  }

  // ---- when the loose checks are as good as the kernel's ----

  /** The shortest positive gap the loose connection check can accept. */
  function LeastGap(raw: RawParams): int {
    var loose := LooseConnection(raw);
    Max(1, Max(loose.minLayover - loose.tolerance, if loose.enforceMinInterval then loose.minBreak else 1))
  }

  /** Two one-minute trips in a row fit the span limit. */
  predicate PairFits(raw: RawParams) {
    LooseShift(raw) <= 0 || LooseShift(raw) >= 2
  }

  /** So they do with the shortest positive gap between them. */
  predicate GapFits(raw: RawParams) {
    LooseShift(raw) <= 0 || LooseShift(raw) >= LeastGap(raw) + 2
  }

  predicate NoTolerance(raw: RawParams) {
    raw.strictOperational || raw.strictHard
  }

  /** The shortest gap the loose check accepts satisfies the kernel, and no strict flag asks for more. */
  predicate HeadsOk(raw: RawParams) {
    && raw.maxShift != Some(0)
    && (PairFits(raw) ==> !raw.strictZeroGap)
    && (GapFits(raw) ==>
          var tolerance := GetOr(raw.tolerance, 0);
          && (NoTolerance(raw) ==> tolerance <= 0)
          && (raw.enforceMinInterval ==> LeastGap(raw) >= Extract(raw).conn.minBreak)
          && LeastGap(raw) + (if NoTolerance(raw) then 0 else tolerance) >= Extract(raw).conn.minLayover)
  }

  /** Tail relocation never looks at lines. */
  predicate TailsOk(raw: RawParams) {
    HeadsOk(raw) && (PairFits(raw) ==> raw.allowMultiLine)
  }

  predicate TailFits(recv: Chain, tail: Chain, raw: RawParams) {
    && recv != [] && tail != []
    && GapBetween(recv[|recv| - 1], tail[0]) >= 0
    && EdgeFeasible(recv[|recv| - 1], tail[0], LooseConnection(raw))
    && (LooseShift(raw) > 0 ==> tail[|tail| - 1].end - recv[0].start <= LooseShift(raw))
  }

  predicate HeadJoins(a: Chain, b: Chain, raw: RawParams) {
    && a != [] && b != []
    && GapBetween(a[|a| - 1], b[0]) >= 0
    && EdgeFeasible(a[|a| - 1], b[0], LooseConnection(raw))
    && (raw.allowMultiLine || a[|a| - 1].line == b[0].line)
    && (LooseShift(raw) > 0 ==> b[0].end - a[0].start <= LooseShift(raw))
  }

  lemma LooseEdgeIsFeasible(raw: RawParams, a: Trip, b: Trip)
    requires HeadsOk(raw) && a.start < a.end && b.start < b.end
    requires EdgeFeasible(a, b, LooseConnection(raw)) && (LooseShift(raw) > 0 ==> b.end - a.start <= LooseShift(raw))
    ensures EdgeFeasible(a, b, Extract(raw).conn)
  {
  }

  /** Two trips of one line in sequence, `gap` minutes apart. */
  function PairOf(gap: int, deadhead: int, line: int): (Trip, Trip) {
    (Trip(1, 1, 0, 1, 1, 2, Some(7), None, 0, "", None, map[3 := deadhead]),
     Trip(2, line, 1 + gap, 2 + gap, 3, 1, Some(7), None, 0, "", None, map[]))
  }

  /** Such a pair passes the loose checks when its gap is 0, or covers layover and deadhead, and the span fits. */
  lemma PairPasses(raw: RawParams, gap: int, deadhead: int)
    requires LooseShift(raw) <= 0 || LooseShift(raw) >= gap + 2
    requires var p := LooseConnection(raw);
      gap == 0 || (gap >= LeastGap(raw) && gap + p.tolerance >= Max(p.minLayover, deadhead))
    ensures var (a, b) := PairOf(gap, deadhead, 1); TailFits([a], [b], raw) && HeadJoins([a], [b], raw)
  {
    var (a, b) := PairOf(gap, deadhead, 1);
    assert GapBetween(a, b) == gap && a.DeadheadTo(b.origin) == deadhead;
    assert EdgeFeasible(a, b, LooseConnection(raw));
  }

  /** The kernel refuses the pair where it asks for more than the gap offers, or compares the terminals. */
  predicate Refused(p: Connection, gap: int, deadhead: int) {
    if gap == 0 then p.strictZeroGap
    else || (p.enforceMinInterval && gap < p.minBreak)
         || gap + (if p.strictOperational || p.strictHard then 0 else p.tolerance) < Max(p.minLayover, deadhead)
  }

  lemma PairRefused(p: Connection, gap: int, deadhead: int)
    requires gap >= 0 && Refused(p, gap, deadhead)
    ensures var (a, b) := PairOf(gap, deadhead, 1); !EdgeFeasible(a, b, p)
  {
    var (a, b) := PairOf(gap, deadhead, 1);
    assert GapBetween(a, b) == gap && a.DeadheadTo(b.origin) == deadhead;
  }

  /** When the condition fails, some gap and deadhead pass the loose checks and not the kernel. */
  lemma LooseGap(raw: RawParams) returns (gap: int, deadhead: int)
    requires !HeadsOk(raw)
    ensures gap == 0 || (gap >= LeastGap(raw)
      && gap + LooseConnection(raw).tolerance >= Max(LooseConnection(raw).minLayover, deadhead))
    ensures LooseShift(raw) <= 0 || LooseShift(raw) >= gap + 2
    ensures (gap > 960 && Extract(raw).maxShift == 960) || Refused(Extract(raw).conn, gap, deadhead)
  {
    var layover, tolerance := LooseConnection(raw).minLayover, GetOr(raw.tolerance, 0);
    if raw.maxShift == Some(0) {
      gap, deadhead := Max(LeastGap(raw), 961), layover;
    } else if PairFits(raw) && raw.strictZeroGap {
      gap, deadhead := 0, 0;
    } else if NoTolerance(raw) && tolerance > 0 {
      gap, deadhead := LeastGap(raw), LeastGap(raw) + tolerance;
    } else {
      gap, deadhead := LeastGap(raw), layover;
    }
  }

  /** When the condition fails, some pair passes the loose checks and not the kernel. */
  lemma LoosePair(raw: RawParams) returns (a: Trip, b: Trip)
    requires !HeadsOk(raw)
    ensures a.start < a.end && b.start < b.end && a.line == b.line && TailFits([a], [b], raw)
    ensures HeadJoins([a], [b], raw)
    ensures !(EdgeFeasible(a, b, Extract(raw).conn) && WithinShift([a] + [b], Extract(raw)))
  {
    hide HeadsOk, TailFits, HeadJoins, EdgeFeasible, Refused, LeastGap;
    var gap, deadhead := LooseGap(raw);
    a, b := PairOf(gap, deadhead, 1).0, PairOf(gap, deadhead, 1).1;
    LeastPositive(raw);
    PairPasses(raw, gap, deadhead);
    if Refused(Extract(raw).conn, gap, deadhead) {
      PairRefused(Extract(raw).conn, gap, deadhead);
    }
  }

  lemma LeastPositive(raw: RawParams)
    ensures LeastGap(raw) >= 1
  {
  }

  lemma PairInfeasible(a: Trip, b: Trip, p: Params)
    requires !(EdgeFeasible(a, b, p.conn) && WithinShift([a] + [b], p)) || (!p.allowMultiLine && a.line != b.line)
    ensures !BlockFeasible([a] + [b], p)
  {
    JoinFeasible([a], [b], p);
    assert a.line in Lines([a]) && Lines([b]) == {b.line};
  }

  lemma TailFitsFeasible(recv: Chain, tail: Chain, raw: RawParams)
    requires TailsOk(raw) && WellTimed(recv) && WellTimed(tail)
    requires BlockFeasible(recv, Extract(raw)) && BlockFeasible(tail, Extract(raw)) && TailFits(recv, tail, raw)
    ensures BlockFeasible(recv + tail, Extract(raw))
  {
    hide HeadsOk;
    var p := Extract(raw);
    FeasibleSpan(recv, p, 0, |recv| - 1);
    FeasibleSpan(tail, p, 0, |tail| - 1);
    LooseEdgeIsFeasible(raw, recv[|recv| - 1], tail[0]);
    ShiftsAgree(raw);
    SpanHasRoom(recv[0], tail[|tail| - 1], raw);
    JoinFeasible(recv, tail, p);
  }

  lemma ShiftsAgree(raw: RawParams)
    requires HeadsOk(raw)
    ensures LooseShift(raw) == Extract(raw).maxShift
  {
  }

  lemma SpanHasRoom(a: Trip, b: Trip, raw: RawParams)
    requires LooseShift(raw) > 0 ==> b.end - a.start <= LooseShift(raw)
    requires a.start < a.end <= b.start < b.end
    ensures PairFits(raw)
  {
  }

  /** Two feasible blocks that pass the checks of a relocation. */
  ghost predicate TailCase(recv: Chain, tail: Chain, raw: RawParams) {
    && WellTimed(recv) && WellTimed(tail) && TailFits(recv, tail, raw)
    && BlockFeasible(recv, Extract(raw)) && BlockFeasible(tail, Extract(raw))
  }

  /** Relocating tails keeps feasible blocks feasible, whatever they are, exactly under `TailsOk`. */
  lemma TailFitsExact(raw: RawParams)
    ensures TailsOk(raw) <==>
      forall recv, tail :: TailCase(recv, tail, raw) ==> BlockFeasible(recv + tail, Extract(raw))
  {
    hide BlockFeasible, EdgeFeasible, HeadsOk;
    if TailsOk(raw) {
      forall recv, tail | TailCase(recv, tail, raw)
        ensures BlockFeasible(recv + tail, Extract(raw))
      {
        TailFitsFeasible(recv, tail, raw);
      }
    } else {
      var a, b := TailCounterexample(raw);
      assert TailCase([a], [b], raw);
    }
  }

  lemma TailCounterexample(raw: RawParams) returns (a: Trip, b: Trip)
    requires !TailsOk(raw)
    ensures WellTimed([a]) && WellTimed([b]) && TailFits([a], [b], raw)
    ensures BlockFeasible([a], Extract(raw)) && BlockFeasible([b], Extract(raw))
    ensures !BlockFeasible([a] + [b], Extract(raw))
  {
    if !HeadsOk(raw) {
      a, b := LoosePair(raw);
    } else {
      a, b := PairOf(0, 0, 2).0, PairOf(0, 0, 2).1;
    }
    PairInfeasible(a, b, Extract(raw));
  }

  lemma HeadJoinsFeasible(a: Chain, b: Chain, raw: RawParams)
    requires HeadsOk(raw) && WellTimed(a) && WellTimed(b) && HeadJoins(a, b, raw) && BlockFeasible(a, Extract(raw))
    ensures BlockFeasible(a + [b[0]], Extract(raw))
  {
    hide HeadsOk;
    var p := Extract(raw);
    FeasibleSpan(a, p, 0, |a| - 1);
    LooseEdgeIsFeasible(raw, a[|a| - 1], b[0]);
    ShiftsAgree(raw);
    JoinFeasible(a, [b[0]], p);
    if !raw.allowMultiLine {
      SmallLines(a, p);
      OneLine(a);
      assert a[|a| - 1] in a;
      assert Lines(a) == {b[0].line};
      assert Lines([b[0]]) == {b[0].line};
    }
  }

  /** Moving first trips keeps feasible blocks feasible, whatever they are, exactly under `HeadsOk`. */
  lemma HeadJoinsExact(raw: RawParams)
    ensures HeadsOk(raw) <==>
      forall a, b :: WellTimed(a) && WellTimed(b) && HeadJoins(a, b, raw) && BlockFeasible(a, Extract(raw))
        ==> BlockFeasible(a + b[..1], Extract(raw))
  {
    hide BlockFeasible, EdgeFeasible, HeadsOk;
    if HeadsOk(raw) {
      forall a, b | WellTimed(a) && WellTimed(b) && HeadJoins(a, b, raw) && BlockFeasible(a, Extract(raw))
        ensures BlockFeasible(a + b[..1], Extract(raw))
      {
        HeadJoinsFeasible(a, b, raw);
        assert b[..1] == [b[0]];
      }
    } else {
      var a, b := LoosePair(raw);
      PairInfeasible(a, b, Extract(raw));
      SingleFeasible(a, Extract(raw));
      assert [b][..1] == [b] && WellTimed([a]) && WellTimed([b]);
    }
  }

  lemma SingleFeasible(t: Trip, p: Params)
    ensures BlockFeasible([t], p)
  {
  }
}
