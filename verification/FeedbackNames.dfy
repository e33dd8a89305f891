// Which block a feedback target cuts: every candidate renumbers the blocks it shares with the seed.
module FeedbackNames {
  import opened Domain
  import opened Kernel
  import opened Plans
  import opened Blocks
  import opened Moves
  import opened Splitting
  import opened Renaming
  import opened Feedback

  /** Blocks 1 to n in start order, as renumbering leaves them. */
  ghost predicate Numbered(plan: Plan, ids: seq<int>) {
    SortedByStart(plan) && |ids| == |plan| && forall i :: 0 <= i < |plan| ==> ids[i] == i + 1
  }

  /** Ids that ascend along the blocks, each one or two above the index; a repeated one has been a target. */
  ghost predicate NearlyNumbered(plan: Plan, ids: seq<int>, used: seq<int>) {
    && SortedByStart(plan) && |ids| == |plan|
    && (forall i :: 0 <= i < |plan| ==> ids[i] == i + 1 || ids[i] == i + 2)
    && (forall i, k :: 0 <= i < k < |plan| ==> ids[i] <= ids[k] && (ids[i] == ids[k] ==> ids[i] in used))
  }

  ghost predicate NoRepeats(targets: seq<int>) {
    forall i, j :: 0 <= i < j < |targets| ==> targets[i] != targets[j]
  }

  lemma NearlyStartOrder(plan: Plan, ids: seq<int>, used: seq<int>)
    requires NearlyNumbered(plan, ids, used)
    ensures StartOrder(plan, ids)
  {
  }

  /** A target not used before names at most one block. */
  lemma CutsOnce(plan: Plan, ids: seq<int>, used: seq<int>, target: int, cuts: seq<nat>) returns (at: nat)
    requires NearlyNumbered(plan, ids, used) && target !in used && CutsNamed(plan, ids, target, cuts) && Cuts(cuts)
    ensures SoleCut(cuts, at) && ids[at] == target
  {
    at :| 0 <= at < |cuts| && cuts[at] > 0;
    forall k | 0 <= k < |cuts| && cuts[k] > 0 ensures k == at {
      assert ids[k] == target == ids[at];
    }
  }

  lemma StaysNearly(plan: Plan, ids: seq<int>, used: seq<int>, target: int, cuts: seq<nat>, firstId: int,
                    next: seq<int>)
    requires NearlyNumbered(plan, ids, used) && target !in used && Renamed(plan, ids, target, cuts, firstId, next)
    ensures NearlyNumbered(plan, next, used + [target])
  {
    if Cuts(cuts) {
      var at := CutsOnce(plan, ids, used, target, cuts);
      NearlyStartOrder(plan, ids, used);
      var tail := plan[at][cuts[at]..];
      forall i, k | 0 <= i < k < |plan|
        ensures next[i] <= next[k] && (next[i] == next[k] ==> next[i] == target)
      {
        assert Precedes(plan[i], ids[i], plan[k], ids[k]);
        assert i > at && Precedes(tail, firstId, plan[i], ids[i]) ==> Precedes(tail, firstId, plan[k], ids[k]);
      }
    }
  }

  /** Over all targets: the ids stay nearly numbered. */
  lemma {:induction false} NamesStayNear(plan: Plan, targets: seq<int>, log: Log, n: nat)
    requires NoRepeats(targets) && n <= |targets| && Logged(plan, targets, |targets|, log)
    requires Numbered(plan, log.names[0])
    ensures NearlyNumbered(plan, log.names[n], targets[..n])
  {
    hide Renamed;
    if n > 0 {
      NamesStayNear(plan, targets, log, n - 1);
      assert targets[..n] == targets[..n - 1] + [targets[n - 1]];
      assert targets[n - 1] !in targets[..n - 1];
      StaysNearly(plan, log.names[n - 1], targets[..n - 1], targets[n - 1], log.cuts[n - 1], log.firstId, log.names[n]);
    }
  }

  /** A target t cuts block t, block t - 1 or nothing, and one block at most. */
  lemma TargetCuts(plan: Plan, targets: seq<int>, log: Log, j: nat) returns (at: nat)
    requires NoRepeats(targets) && j < |targets| && Logged(plan, targets, |targets|, log)
    requires Numbered(plan, log.names[0]) && Cuts(log.cuts[j])
    ensures SoleCut(log.cuts[j], at) && |plan| == |log.names[j]| == |log.cuts[j]| && CutsFit(plan, log.cuts[j])
    ensures |plan[at]| >= 4 && log.names[j][at] == targets[j]
    ensures at == targets[j] - 1 || at == targets[j] - 2
    ensures log.names[j + 1] == NewIds(plan, log.names[j], log.cuts[j], at, log.firstId)
  {
    NamesStayNear(plan, targets, log, j);
    assert targets[j] !in targets[..j];
    assert Renamed(plan, log.names[j], targets[j], log.cuts[j], log.firstId, log.names[j + 1]);
    at := CutsOnce(plan, log.names[j], targets[..j], targets[j], log.cuts[j]);
    NearlyStartOrder(plan, log.names[j], targets[..j]);
  }

  lemma {:induction false} NoCutNoChange(plan: Plan, targets: seq<int>, log: Log, i: nat, j: nat)
    requires Logged(plan, targets, |targets|, log) && i <= j <= |targets|
    requires forall l :: i <= l < j ==> !Cuts(log.cuts[l])
    ensures log.names[j] == log.names[i]
  {
    if i < j { NoCutNoChange(plan, targets, log, i, j - 1); }
  }

  /** With the latest cut at block `at`: which blocks still carry their own number. */
  lemma OwnNumber(plan: Plan, targets: seq<int>, log: Log, l: nat, j: nat, at: nat, i: nat)
    requires NoRepeats(targets) && l < j <= |targets| && Logged(plan, targets, |targets|, log)
    requires Numbered(plan, log.names[0]) && SoleCut(log.cuts[l], at)
    requires forall k :: l < k < j ==> !Cuts(log.cuts[k])
    requires i < |plan|
    ensures CutsFit(plan, log.cuts[l]) && |plan| == |log.names[l]| == |log.cuts[l]| == |log.names[j]|
    ensures log.names[j][i] == i + 1 <==>
      if i == at then targets[l] == i + 1
      else i < at || !Precedes(plan[at][log.cuts[l][at]..], log.firstId, plan[i], log.names[l][i])
  {
    assert log.cuts[l][at] > 0;
    var k := TargetCuts(plan, targets, log, l);
    NoCutNoChange(plan, targets, log, l + 1, j);
    assert Renamed(plan, log.names[l], targets[l], log.cuts[l], log.firstId, log.names[l + 1]);
  }

  /** The right halves of numbered blocks are numbered on from n + 1. */
  lemma {:induction false} LargestOfNumbered(bs: seq<Block>, n: nat)
    requires Numbered(View(bs), BlockIds(bs)) && n <= |bs|
    ensures LargestId(bs, n) == n
  {
    hide ViewTo, BlockIdsTo, SortedByStart;
    if n > 0 {
      LargestOfNumbered(bs, n - 1);
      assert bs[n - 1].id == BlockIds(bs)[n - 1];
    }
  }

  /** The given part of block k starts no earlier than block i. */
  ghost predicate NoLater(plan: Plan, i: nat, k: nat, cut: nat)
    requires i < |plan| && k < |plan| && cut <= |plan[k]|
  {
    ChainStart(plan[i]) <= ChainStart(plan[k][cut..])
  }

  /** After the first cut, of block k, another keeps its number iff it starts no later than the right half. */
  lemma FirstCut(plan: Plan, targets: seq<int>, log: Log, j: nat, p: Params) returns (k: nat)
    requires Proper(plan, p) && j < |targets| && Logged(plan, targets, |targets|, log)
    requires Numbered(plan, log.names[0]) && log.firstId == |plan| + 1
    requires Cuts(log.cuts[j]) && forall l :: 0 <= l < j ==> !Cuts(log.cuts[l])
    ensures k == targets[j] - 1 && k < |plan| && SoleCut(log.cuts[j], k) && log.cuts[j][k] < |plan[k]|
    ensures |log.names[j + 1]| == |plan| && forall i :: 0 <= i < |plan| ==>
      log.names[j + 1][i] == if i == k || NoLater(plan, i, k, log.cuts[j][k]) then i + 1 else i + 2
  {
    NoCutNoChange(plan, targets, log, 0, j);
    assert Renamed(plan, log.names[j], targets[j], log.cuts[j], log.firstId, log.names[j + 1]);
    k := CutsOnce(plan, log.names[j], [], targets[j], log.cuts[j]);
    NearlyStartOrder(plan, log.names[j], []);
    PoolWellTimed(plan, k);
    FeasibleSpan(plan[k], p, 0, log.cuts[j][k]);
  }

  /** The next target t that meets the renamed blocks cuts its own block t iff that one kept its number. */
  lemma NextTarget(plan: Plan, targets: seq<int>, log: Log, j: nat, l: nat, p: Params) returns (k: nat)
    requires Proper(plan, p) && j < l < |targets| && Logged(plan, targets, |targets|, log)
    requires Numbered(plan, log.names[0]) && log.firstId == |plan| + 1
    requires Cuts(log.cuts[j]) && forall i :: 0 <= i < l && i != j ==> !Cuts(log.cuts[i])
    ensures k == targets[j] - 1 && k < |plan| == |log.cuts[j]| == |log.cuts[l]| && log.cuts[j][k] < |plan[k]|
    ensures forall i :: 0 <= i < |plan| ==> (log.cuts[l][i] > 0 <==>
      |plan[i]| >= 4 && targets[l] == if i == k || NoLater(plan, i, k, log.cuts[j][k]) then i + 1 else i + 2)
  {
    k := FirstCut(plan, targets, log, j, p);
    NoCutNoChange(plan, targets, log, j + 1, l);
    assert Renamed(plan, log.names[l], targets[l], log.cuts[l], log.firstId, log.names[l + 1]);
  }

  // ---- a target that cuts another block ----

  /** Four trips with ids from `id`, ten minutes each and ten minutes apart. */
  function Four(id: int, start: int): Chain {
    [Ride(id, start, start + 10), Ride(id + 1, start + 20, start + 30), Ride(id + 2, start + 40, start + 50),
     Ride(id + 3, start + 60, start + 70)]
  }

  /** Blocks that start at minutes 0, 45 and 50. */
  function Staggered(): (plan: Plan)
    ensures |plan| == 3
  {
    [Four(1, 0), Four(5, 45), Four(9, 50)]
  }

  /** Targets 1 and 3: block 1 is cut at minute 40, so 3 is the id of block 2 now; block 3 is never cut. */
  method FeedbackStrays() returns (cands: seq<VspSolution>, ghost log: Log)
    ensures log.names == [[1, 2, 3], [1, 3, 4], [1, 3, 3]] && log.cuts == [[2, 0, 0], [0, 2, 0]]
    ensures |cands| == 2 && CutInto(View(cands[1].blocks), Staggered(), [0, 2, 0])
  {
    hide PoolTo, ViewTo, BlockFeasible, AllSolutionsHold, Logged, Staggered, Proper, AnyHit, CutInto, BlockIds;
    hide MadeBy, BlockIdsTo, SolutionParts, Cutting;
    ghost var plan := Staggered();
    var one := new Block(1, Staggered()[0]);
    var two := new Block(2, Staggered()[1]);
    var three := new Block(3, Staggered()[2]);
    var vsp := VspSolution([one, two, three], []);
    assert View(vsp.blocks) == plan && BlockIds(vsp.blocks) == [1, 2, 3];
    NumberedFromOne(plan);
    LargestOfNumbered(vsp.blocks, 3);
    StaggeredProper();
    cands, log := FeedbackCandidates(vsp, [1, 3], DEFAULTS);
    StaggeredNames(log);
    StaggeredCuts(cands, log.cuts);
  }

  lemma StaggeredCuts(cands: seq<VspSolution>, cuts: seq<seq<nat>>)
    requires Cutting(cuts, |cuts|) == cuts == [[2, 0, 0], [0, 2, 0]] && MadeBy(cands, Staggered(), cuts)
    ensures |cands| == 2 && CutInto(View(cands[1].blocks), Staggered(), [0, 2, 0])
  {
  }

  lemma NumberedFromOne(plan: Plan)
    requires plan == Staggered()
    ensures Numbered(plan, [1, 2, 3])
  {
  }

  lemma StaggeredNames(log: Log)
    requires Logged(Staggered(), [1, 3], 2, log) && log.names[0] == [1, 2, 3] && log.firstId == 4
    ensures log.names == [[1, 2, 3], [1, 3, 4], [1, 3, 3]] && log.cuts == [[2, 0, 0], [0, 2, 0]]
    ensures Cutting(log.cuts, 2) == log.cuts
  {
    hide Renamed;
    assert Renamed(Staggered(), log.names[0], [1, 3][0], log.cuts[0], log.firstId, log.names[1]);
    FirstName(log.cuts[0], log.names[1]);
    assert Renamed(Staggered(), log.names[1], [1, 3][1], log.cuts[1], log.firstId, log.names[2]);
    SecondName(log.cuts[1], log.names[2]);
    assert log.names == [log.names[0], log.names[1], log.names[2]] && log.cuts == [log.cuts[0], log.cuts[1]];
    assert Cuts(log.cuts[0]) && Cuts(log.cuts[1]) by { assert log.cuts[0][0] > 0 && log.cuts[1][1] > 0; }
    assert Cutting(log.cuts, 1) == [log.cuts[0]];
  }

  lemma FirstName(cuts: seq<nat>, next: seq<int>)
    requires Renamed(Staggered(), [1, 2, 3], 1, cuts, 4, next)
    ensures cuts == [2, 0, 0] && next == [1, 3, 4]
  {
    assert SoleCut(cuts, 0) && StartOrder(Staggered(), [1, 2, 3]);
  }

  lemma SecondName(cuts: seq<nat>, next: seq<int>)
    requires Renamed(Staggered(), [1, 3, 4], 3, cuts, 4, next)
    ensures cuts == [0, 2, 0] && next == [1, 3, 3]
  {
    assert SoleCut(cuts, 1) && StartOrder(Staggered(), [1, 3, 4]);
  }

  lemma StaggeredProper()
    ensures Proper(Staggered(), Extract(DEFAULTS))
  {
    var a, b, c := Four(1, 0), Four(5, 45), Four(9, 50);
    FourFits(1, 0);
    FourFits(5, 45);
    FourFits(9, 50);
    hide BlockFeasible, Four;
    ThreeProper(a, b, c, Extract(DEFAULTS));
  }

  lemma ThreeProper(a: Chain, b: Chain, c: Chain, p: Params)
    requires BlockFeasible(a, p) && BlockFeasible(b, p) && BlockFeasible(c, p) && a != [] && b != [] && c != []
    requires WellTimed(a + b + c)
    requires forall i :: 0 <= i < |a + b + c| ==> (a + b + c)[i].id == i + 1
    ensures Proper([a, b, c], p)
  {
    hide BlockFeasible, WellTimed, Pool, DistinctIds;
    ThreePool(a, b, c);
    AscendingIds(a + b + c);
    TimedPool(a + b + c);
  }

  lemma TimedPool(c: Chain)
    requires WellTimed(c)
    ensures WellTimedPool(multiset(c))
  {
    assert forall t :: t in multiset(c) ==> t in c;
  }

  lemma ThreePool(a: Chain, b: Chain, c: Chain)
    ensures Pool([a, b, c]) == multiset(a + b + c)
  {
    PoolTwo(a, b);
    PoolSingle(c);
    PoolConcat([a, b], [c]);
    assert [a, b] + [c] == [a, b, c];
  }

  lemma FourFits(id: int, start: int)
    ensures BlockFeasible(Four(id, start), Extract(DEFAULTS)) && WellTimed(Four(id, start)) && |Four(id, start)| == 4
    ensures forall i :: 0 <= i < 4 ==> Four(id, start)[i].id == id + i
  {
  }

  lemma {:induction false} AscendingIds(c: Chain)
    requires forall i :: 0 <= i < |c| ==> c[i].id == i + 1
    ensures DistinctIds(multiset(c))
  {
    hide DistinctIds;
    if c == [] {
      NoIds();
      return;
    }
    var n := |c| - 1;
    AscendingIds(c[..n]);
    assert c == c[..n] + [c[n]];
    assert forall t :: t in c[..n] ==> t.id <= n;
    OneMoreId(c[..n], c[n]);
  }

  lemma NoIds()
    ensures DistinctIds(multiset([]))
  {
  }

  lemma OneMoreId(c: Chain, t: Trip)
    requires DistinctIds(multiset(c)) && forall u :: u in c ==> u.id != t.id
    ensures DistinctIds(multiset(c + [t]))
  {
    assert multiset(c + [t]) == multiset(c) + multiset{t};
    assert forall u :: u in multiset(c) <==> u in c;
  }
}
