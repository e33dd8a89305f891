// The independent block audit (`_audit_block`) against the feasibility kernel.
module Auditor {
  import opened Wrappers
  import opened Domain
  import opened Kernel

  datatype AuditParams = AuditParams(
    minLayover: int,
    tolerance: int,
    sameDepot: bool,
    allowMultiLine: bool,
    maxIdleGap: Option<int>,
    enforceMinInterval: bool)

  datatype EdgeFault = Overlap | IdleGapExceeded | MinInterval | DeadheadInfeasible

  datatype Issue =
    | MultiLine
    | Edge(at: nat, fault: EdgeFault)
    | BlockSameDepot
    | DutySameDepot

  /** The audit of one connection. */
  function EdgeCheck(current: Trip, next: Trip, a: AuditParams): Option<EdgeFault> {
    var gap := GapBetween(current, next);
    if ContiguousPair(current, next) then None else
    var deadheadNeed :=
      if next.origin in current.deadhead then current.deadhead[next.origin]
      else if current.destination == next.origin then 0 else a.minLayover;
    var need := Max(a.minLayover, deadheadNeed);
    if gap < 0 then Some(Overlap)
    else if a.maxIdleGap.Some? && gap > a.maxIdleGap.value then Some(IdleGapExceeded)
    else if a.enforceMinInterval && 0 < gap < a.minLayover then Some(MinInterval)
    else if gap + a.tolerance < need then Some(DeadheadInfeasible)
    else None
  }

  /** Issues of the connections before position n. */
  ghost function EdgeIssues(c: Chain, a: AuditParams, n: nat): seq<Issue>
    requires n <= |c|
  {
    if n <= 1 then [] else
    EdgeIssues(c, a, n - 1) +
    (match EdgeCheck(c[n - 2], c[n - 1], a) case None => [] case Some(fault) => [Edge(n - 2, fault)])
  }

  predicate DepotsDiffer(c: Chain) {
    c != [] && c[0].depot.Some? && c[|c| - 1].depot.Some? && c[0].depot != c[|c| - 1].depot
  }

  /** `_audit_block`: exactly one issue per faulty connection, after the line issue and before the depot issues. */
  method AuditBlock(c: Chain, a: AuditParams) returns (issues: seq<Issue>)
    ensures issues == LineIssues(c, a) + EdgeIssues(c, a, |c|) + DepotIssues(c, a)
    ensures forall x: Issue :: x.Edge? ==> (x in issues <==> NamesFault(x, c, a, |c|))
    ensures MultiLine in issues <==> !a.allowMultiLine && exists t, u :: t in c && u in c && t.line != u.line
    ensures BlockSameDepot in issues <==> a.sameDepot && DepotsDiffer(c)
    ensures DutySameDepot in issues <==> a.sameDepot && DepotsDiffer(c)
  {
    hide EdgeCheck, NamesFault, EdgeIssues;
    issues := [];
    NoneYet(c, a);
    if |Lines(c)| > 1 && !a.allowMultiLine {
      issues := issues + [MultiLine];
    }
    assert issues == LineIssues(c, a);
    hide LineIssues, Lines, DepotsDiffer;
    var index := 0;
    while index < |c| - 1
      invariant 0 <= index && (|c| >= 1 ==> index <= |c| - 1) && (c == [] ==> index == 0)
      invariant issues == LineIssues(c, a) + EdgeIssues(c, a, Min(index + 1, |c|))
    {
      var fault := EdgeCheck(c[index], c[index + 1], a);
      OneMore(c, a, index + 2);
      ghost var done := EdgeIssues(c, a, index + 1);
      if fault.Some? {
        issues := issues + [Edge(index, fault.value)];
        assert issues == LineIssues(c, a) + (done + [Edge(index, fault.value)]);
      }
      index := index + 1;
    }
    if a.sameDepot && DepotsDiffer(c) {
      issues := issues + [BlockSameDepot];
      issues := issues + [DutySameDepot];
      assert DepotIssues(c, a) == [BlockSameDepot] + [DutySameDepot];
    }
    AllIssues(c, a);
  }

  lemma NoneYet(c: Chain, a: AuditParams)
    ensures EdgeIssues(c, a, Min(1, |c|)) == []
  {
  }

  lemma OneMore(c: Chain, a: AuditParams, n: nat)
    requires 1 < n <= |c|
    ensures var fault := EdgeCheck(c[n - 2], c[n - 1], a);
      EdgeIssues(c, a, n) == EdgeIssues(c, a, n - 1) + (if fault.Some? then [Edge(n - 2, fault.value)] else [])
  {
  }

  ghost function LineIssues(c: Chain, a: AuditParams): seq<Issue> {
    if |Lines(c)| > 1 && !a.allowMultiLine then [MultiLine] else []
  }

  ghost function DepotIssues(c: Chain, a: AuditParams): seq<Issue> {
    if a.sameDepot && DepotsDiffer(c) then [BlockSameDepot, DutySameDepot] else []
  }

  /** What each issue of the list means. */
  lemma AllIssues(c: Chain, a: AuditParams)
    ensures var issues := LineIssues(c, a) + EdgeIssues(c, a, |c|) + DepotIssues(c, a);
      && (forall x: Issue :: x.Edge? ==> (x in issues <==> NamesFault(x, c, a, |c|)))
      && (MultiLine in issues <==> !a.allowMultiLine && exists t, u :: t in c && u in c && t.line != u.line)
      && (BlockSameDepot in issues <==> a.sameDepot && DepotsDiffer(c))
      && (DutySameDepot in issues <==> a.sameDepot && DepotsDiffer(c))
  {
    hide EdgeIssues, NamesFault, Lines, DepotsDiffer;
    ManyLines(c);
    EdgeIssuesAre(c, a, |c|);
    forall x | x in EdgeIssues(c, a, |c|) ensures x.Edge? {
      NamesEdge(x, c, a);
    }
  }

  lemma NamesEdge(x: Issue, c: Chain, a: AuditParams)
    ensures NamesFault(x, c, a, |c|) ==> x.Edge?
  {
  }

  lemma ManyLines(c: Chain)
    ensures |Lines(c)| > 1 <==> exists t, u :: t in c && u in c && t.line != u.line
  {
    if c == [] {
      assert Lines(c) == {};
    } else {
      OneLine(c);
      assert c[0] in c;
    }
  }

  /** Tolerance, line rule and interval rule are shared; the layovers and the audit's own rules are free. */
  predicate Aligned(p: Params, a: AuditParams) {
    && a.tolerance == p.conn.tolerance
    && a.allowMultiLine == p.allowMultiLine
    && a.enforceMinInterval == p.conn.enforceMinInterval
  }

  predicate Strict(p: Connection) {
    p.strictOperational || p.strictHard
  }

  /** The shortest positive gap the kernel can accept. */
  function LeastGap(p: Connection): int {
    var rested := if Strict(p) then p.minLayover else p.minLayover - p.tolerance;
    Max(1, Max(rested, if p.enforceMinInterval then p.minBreak else 1))
  }

  /** The kernel's shortest gap already satisfies an audit with this layover, and the tolerance drives no wedge. */
  predicate Harmless(p: Connection, auditLayover: int) {
    && (Strict(p) ==> p.tolerance >= 0)
    && (p.enforceMinInterval ==> LeastGap(p) >= auditLayover)
    && LeastGap(p) + p.tolerance >= auditLayover
  }

  /** Where trips touch, the audit knows grouped pairs; the halves of a split trip need enough tolerance. */
  predicate JointPasses(current: Trip, next: Trip, a: AuditParams) {
    GapBetween(current, next) == 0 ==>
      ContiguousPair(current, next) || a.tolerance >= Max(a.minLayover, current.DeadheadTo(next.origin))
  }

  /** The audit's own limit on idle gaps, which spares grouped pairs. */
  predicate GapWithin(current: Trip, next: Trip, a: AuditParams) {
    ContiguousPair(current, next) || a.maxIdleGap.None? || GapBetween(current, next) <= a.maxIdleGap.value
  }

  /** The kernel takes the connection, and neither its joint nor the limit on idle gaps speaks against it. */
  predicate Unremarkable(c: Trip, d: Trip, p: Params, a: AuditParams) {
    EdgeFeasible(c, d, p.conn) && JointPasses(c, d, a) && GapWithin(c, d, a)
  }

  /** The limit leaves no positive gap the kernel can accept. */
  predicate LimitShutsOut(p: Connection, a: AuditParams) {
    a.maxIdleGap.Some? && a.maxIdleGap.value < LeastGap(p)
  }

  /**
   * Every connection the kernel accepts, touching joints and gaps over the limit aside, passes the audit exactly
   * under `Harmless`, or when no positive gap within the limit can be accepted at all.
   */
  lemma AgreementExact(p: Params, a: AuditParams)
    requires Aligned(p, a)
    ensures (forall c, d :: Unremarkable(c, d, p, a) ==> EdgeCheck(c, d, a).None?)
      <==> Harmless(p.conn, a.minLayover) || LimitShutsOut(p.conn, a)
  {
    if Harmless(p.conn, a.minLayover) || LimitShutsOut(p.conn, a) {
      forall c, d | Unremarkable(c, d, p, a) ensures EdgeCheck(c, d, a).None? {
        PassesAudit(c, d, p, a);
      }
    } else if Strict(p.conn) && p.conn.tolerance < 0 {
      var gap := LeastGap(p.conn);
      Disagree(p, a, gap, gap);
    } else {
      Disagree(p, a, LeastGap(p.conn), p.conn.minLayover);
    }
  }

  /**
   * A split trip's joint is always accepted, and reported exactly when it is ungrouped and the tolerance too small
   * (or a negative limit on idle gaps rules out even a gap of 0).
   */
  lemma SplitTripIsReported(c: Trip, d: Trip, p: Params, a: AuditParams)
    requires Aligned(p, a) && d.ContinuationOf(c)
    ensures EdgeFeasible(c, d, p.conn)
    ensures EdgeCheck(c, d, a).Some? <==>
      !(c.group.Some? && c.group == d.group) &&
      (NegativeLimit(a) || p.conn.tolerance < Max(a.minLayover, c.DeadheadTo(d.origin)))
    ensures EdgeCheck(c, d, a).Some? ==>
      EdgeCheck(c, d, a) == Some(if NegativeLimit(a) then IdleGapExceeded else DeadheadInfeasible)
  {
  }

  predicate NegativeLimit(a: AuditParams) {
    a.maxIdleGap.Some? && a.maxIdleGap.value < 0
  }

  /** No setting makes the audit agree on every joint: a long enough deadhead entry is always reported. */
  lemma SomeJointIsReported(p: Params, a: AuditParams)
    requires Aligned(p, a)
    ensures exists c, d :: EdgeFeasible(c, d, p.conn) && EdgeCheck(c, d, a).Some?
  {
    var c := Trip(1, 1, 0, 10, 1, 3, None, Some(9), 0, "", None, map[3 := Max(0, p.conn.tolerance) + 1]);
    var d := Trip(2, 1, 10, 20, 3, 1, None, Some(9), 1, "", None, map[]);
    SplitTripIsReported(c, d, p, a);
  }

  /** The layover `audit_result` passes on: an enforced interval under labour rules raises it to the minimum break. */
  function EffectiveLayover(layover: int, minBreak: int, applyRules: bool, enforceMinInterval: bool): int {
    if applyRules && enforceMinInterval then Max(layover, minBreak) else layover
  }

  /** With the kernel's own layover and break handed to the audit, only these tolerances separate the two. */
  lemma EffectiveHarmless(p: Connection, applyRules: bool)
    ensures Harmless(p, EffectiveLayover(p.minLayover, p.minBreak, applyRules, p.enforceMinInterval)) <==>
      && (Strict(p) ==> p.tolerance >= 0)
      && (p.enforceMinInterval && !Strict(p) ==> p.tolerance <= 0 || p.minBreak >= p.minLayover || p.minLayover <= 1)
      && (p.enforceMinInterval && applyRules ==>
        p.tolerance >= 0 || p.minLayover >= p.minBreak || 1 + p.tolerance >= p.minBreak)
  {
  }

  lemma PassesAudit(c: Trip, d: Trip, p: Params, a: AuditParams)
    requires Aligned(p, a) && Unremarkable(c, d, p, a)
    requires Harmless(p.conn, a.minLayover) || LimitShutsOut(p.conn, a)
    ensures EdgeCheck(c, d, a).None?
  {
  }

  /** A connection the kernel takes and the audit reports. */
  lemma Disagree(p: Params, a: AuditParams, gap: int, deadhead: int)
    requires Aligned(p, a) && gap > 0 && (a.maxIdleGap.Some? ==> gap <= a.maxIdleGap.value)
    requires p.conn.enforceMinInterval ==> gap >= p.conn.minBreak
    requires var required := Max(p.conn.minLayover, deadhead);
      if Strict(p.conn) then gap >= required else gap + p.conn.tolerance >= required
    requires (p.conn.enforceMinInterval && gap < a.minLayover) || gap + p.conn.tolerance < Max(a.minLayover, deadhead)
    ensures exists c, d :: Unremarkable(c, d, p, a) && EdgeCheck(c, d, a).Some?
  {
    var c := Trip(1, 1, 0, 10, 1, 3, None, None, 0, "", None, map[3 := deadhead]);
    var d := Trip(2, 1, 10 + gap, 20 + gap, 3, 1, None, None, 0, "", None, map[]);
    assert Unremarkable(c, d, p, a) && EdgeCheck(c, d, a).Some?;
  }

  /** The issue names a connection before position n and its fault. */
  predicate NamesFault(x: Issue, c: Chain, a: AuditParams, n: nat)
    requires n <= |c|
  {
    x.Edge? && x.at + 1 < n && EdgeCheck(c[x.at], c[x.at + 1], a) == Some(x.fault)
  }

  predicate Earlier(x: Issue, y: Issue) {
    x.Edge? && y.Edge? && x.at < y.at
  }

  ghost predicate InDrivingOrder(s: seq<Issue>) {
    forall k, l :: 0 <= k < l < |s| ==> Earlier(s[k], s[l])
  }

  /** The edge issues of a block are exactly its faulty connections, each once, in driving order. */
  lemma {:induction false} EdgeIssuesAre(c: Chain, a: AuditParams, n: nat)
    requires n <= |c|
    ensures forall x :: x in EdgeIssues(c, a, n) <==> NamesFault(x, c, a, n)
    ensures InDrivingOrder(EdgeIssues(c, a, n))
  {
    hide EdgeCheck;
    if n > 1 {
      EdgeIssuesAre(c, a, n - 1);
      var s := EdgeIssues(c, a, n - 1);
      var check := EdgeCheck(c[n - 2], c[n - 1], a);
      assert EdgeIssues(c, a, n) == if check.None? then s else s + [Edge(n - 2, check.value)];
      if check.Some? { LaterIssue(s, c, a, n, check.value); }
    }
  }

  lemma LaterIssue(s: seq<Issue>, c: Chain, a: AuditParams, n: nat, fault: EdgeFault)
    requires 1 < n <= |c| && InDrivingOrder(s) && forall x :: x in s ==> NamesFault(x, c, a, n - 1)
    ensures InDrivingOrder(s + [Edge(n - 2, fault)])
  {
    hide EdgeCheck;
    forall k | 0 <= k < |s| ensures Earlier(s[k], Edge(n - 2, fault)) {
      assert s[k] in s;
    }
  }

  lemma FaultIsListed(c: Chain, a: AuditParams, i: nat)
    requires i + 1 < |c| && EdgeCheck(c[i], c[i + 1], a).Some?
    ensures EdgeIssues(c, a, |c|) != []
  {
    hide EdgeCheck;
    EdgeIssuesAre(c, a, |c|);
    assert NamesFault(Edge(i, EdgeCheck(c[i], c[i + 1], a).value), c, a, |c|);
  }

  /**
   * A block the kernel accepts has no line issue, and passes the whole audit exactly when its touching joints pass,
   * its ungrouped gaps are within the limit and the depot rule is off or met.
   */
  lemma AcceptedBlockPasses(c: Chain, p: Params, a: AuditParams)
    requires Aligned(p, a) && Harmless(p.conn, a.minLayover) && BlockFeasible(c, p)
    ensures LineIssues(c, a) == []
    ensures EdgeIssues(c, a, |c|) == [] <==>
      forall i :: 0 <= i < |c| - 1 ==> JointPasses(c[i], c[i + 1], a) && GapWithin(c[i], c[i + 1], a)
    ensures LineIssues(c, a) + EdgeIssues(c, a, |c|) + DepotIssues(c, a) == [] <==>
      && (forall i :: 0 <= i < |c| - 1 ==> JointPasses(c[i], c[i + 1], a) && GapWithin(c[i], c[i + 1], a))
      && !(a.sameDepot && DepotsDiffer(c))
  {
    hide BlockFeasible, EdgeFeasible, EdgeCheck, JointPasses, GapWithin, Harmless, DepotsDiffer;
    if c != [] {
      SmallLines(c, p);
    } else {
      assert Lines(c) == {};
    }
    EdgesPass(c, a);
    forall i | 0 <= i < |c| - 1
      ensures EdgeCheck(c[i], c[i + 1], a).None? <==> JointPasses(c[i], c[i + 1], a) && GapWithin(c[i], c[i + 1], a)
    {
      EdgesOf(c, p, i);
      JointExact(c[i], c[i + 1], p, a);
    }
  }

  lemma EdgesOf(c: Chain, p: Params, i: nat)
    requires BlockFeasible(c, p) && i + 1 < |c|
    ensures EdgeFeasible(c[i], c[i + 1], p.conn)
  {
  }

  lemma EdgesPass(c: Chain, a: AuditParams)
    ensures EdgeIssues(c, a, |c|) == [] <==> forall i :: 0 <= i < |c| - 1 ==> EdgeCheck(c[i], c[i + 1], a).None?
  {
    hide EdgeCheck;
    EdgeIssuesAre(c, a, |c|);
    var s := EdgeIssues(c, a, |c|);
    if s == [] {
      forall i | 0 <= i < |c| - 1 ensures EdgeCheck(c[i], c[i + 1], a).None? {
        if EdgeCheck(c[i], c[i + 1], a).Some? {
          FaultIsListed(c, a, i);
        }
      }
    } else {
      assert s[0] in s && NamesFault(s[0], c, a, |c|);
    }
  }

  /** Under `Harmless` the audit of an accepted connection turns on its joint and the limit on idle gaps alone. */
  lemma JointExact(c: Trip, d: Trip, p: Params, a: AuditParams)
    requires Aligned(p, a) && Harmless(p.conn, a.minLayover) && EdgeFeasible(c, d, p.conn)
    ensures EdgeCheck(c, d, a).None? <==> JointPasses(c, d, a) && GapWithin(c, d, a)
  {
    if GapBetween(c, d) == 0 && !ContiguousPair(c, d) {
      SplitTripIsReported(c, d, p, a);
    }
  }
}
