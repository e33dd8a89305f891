// Gap classification of a driver's duty (`build_duty_operational_time_report`).
module OperationalTime {
  import opened Wrappers

  /** One piece of work of a duty. */
  datatype Task = Task(id: int, start: int, end: int, drive: int, sourceBlock: int, blockStart: bool, blockEnd: bool)

  datatype Kind = MandatoryRest | NormalBreak | DriverIdle

  datatype Segment =
    | Work(start: int, end: int, drive: int)
    | VehicleChange(at: int, from: int, to: int)
    | Gap(kind: Kind, start: int, end: int)
    | DutyStart(at: int)
    | DutyEnd(at: int)
    | PullOut(start: int, end: int)
    | PullBack(start: int, end: int)
    | HandOver(at: int, block: int, incoming: bool)

  /** The minutes the rules ask for, already clamped at 0. */
  datatype Rules = Rules(minBreak: int, requiredRest: int, restAfter: int)

  function RulesOf(minBreak: int, mealBreak: int, restAfter: int): Rules {
    Rules(minBreak, Max(0, Max(minBreak, mealBreak)), Max(0, restAfter))
  }

  // ---- the scan as arithmetic over the gaps ----

  function GapAfter(tasks: seq<Task>, k: nat): int
    requires k + 1 < |tasks|
  {
    Max(0, tasks[k + 1].start - tasks[k].end)
  }

  function DriveUpTo(tasks: seq<Task>, n: nat): int
    requires n <= |tasks|
  {
    if n == 0 then 0 else DriveUpTo(tasks, n - 1) + tasks[n - 1].drive
  }

  /** Driving that remains after task k. */
  function DriveAfter(tasks: seq<Task>, k: nat): int
    requires k < |tasks|
  {
    Max(0, DriveUpTo(tasks, |tasks|) - DriveUpTo(tasks, k + 1))
  }

  /** A gap long enough for the mandatory rest, with driving still to come. */
  predicate Eligible(tasks: seq<Task>, r: Rules, k: nat)
    requires k + 1 < |tasks|
  {
    r.requiredRest > 0 && GapAfter(tasks, k) >= r.requiredRest && DriveAfter(tasks, k) > 0
  }

  /** Driving since the last chosen rest, up to and including task k. */
  ghost function Since(tasks: seq<Task>, choice: seq<bool>, k: nat): int
    requires k < |tasks| && k <= |choice|
  {
    (if k == 0 || choice[k - 1] then 0 else Since(tasks, choice, k - 1)) + tasks[k].drive
  }

  /** A way to take rests: each at an eligible gap and after enough driving since the previous one. */
  ghost predicate ValidChoice(tasks: seq<Task>, r: Rules, choice: seq<bool>, n: nat)
    requires n <= |choice| && n < |tasks|
  {
    forall k :: 0 <= k < n && choice[k] ==> Eligible(tasks, r, k) && Since(tasks, choice, k) >= r.restAfter
  }

  /** The scan's own choice takes every rest it can. */
  ghost predicate GreedyChoice(tasks: seq<Task>, r: Rules, choice: seq<bool>, n: nat)
    requires n <= |choice| && n < |tasks|
  {
    forall k :: 0 <= k < n ==> (choice[k] <==> Eligible(tasks, r, k) && Since(tasks, choice, k) >= r.restAfter)
  }

  ghost function Rests(choice: seq<bool>, n: nat): nat
    requires n <= |choice|
  {
    if n == 0 then 0 else Rests(choice, n - 1) + (if choice[n - 1] then 1 else 0)
  }

  /** Driving carried into task n. */
  ghost function Carry(tasks: seq<Task>, choice: seq<bool>, n: nat): int
    requires n <= |choice| && n < |tasks|
  {
    if n == 0 || choice[n - 1] then 0 else Since(tasks, choice, n - 1)
  }

  lemma {:induction false} CarryNonNegative(tasks: seq<Task>, choice: seq<bool>, n: nat)
    requires n <= |choice| && n < |tasks| && forall t :: t in tasks ==> t.drive >= 0
    ensures Carry(tasks, choice, n) >= 0
  {
    if n > 0 && !choice[n - 1] { CarryNonNegative(tasks, choice, n - 1); }
  }

  /** The greedy scan stays ahead: more rests so far, or as many and at least as much driving since. */
  lemma {:induction false} GreedyAhead(tasks: seq<Task>, r: Rules, greedy: seq<bool>, other: seq<bool>, n: nat)
    requires n <= |greedy| && n <= |other| && n < |tasks| && forall t :: t in tasks ==> t.drive >= 0
    requires GreedyChoice(tasks, r, greedy, n) && ValidChoice(tasks, r, other, n)
    ensures Rests(other, n) < Rests(greedy, n)
         || (Rests(other, n) == Rests(greedy, n) && Carry(tasks, other, n) <= Carry(tasks, greedy, n))
  {
    if n > 0 {
      hide Eligible;
      GreedyAhead(tasks, r, greedy, other, n - 1);
      CarryNonNegative(tasks, greedy, n - 1);
      CarryNonNegative(tasks, greedy, n);
      assert Since(tasks, greedy, n - 1) == Carry(tasks, greedy, n - 1) + tasks[n - 1].drive;
      assert Since(tasks, other, n - 1) == Carry(tasks, other, n - 1) + tasks[n - 1].drive;
    }
  }

  /** No valid way to take rests has more of them than the scan. */
  lemma GreedyIsOptimal(tasks: seq<Task>, r: Rules, greedy: seq<bool>, other: seq<bool>)
    requires |tasks| > 0 && |greedy| == |tasks| - 1 == |other| && forall t :: t in tasks ==> t.drive >= 0
    requires GreedyChoice(tasks, r, greedy, |tasks| - 1) && ValidChoice(tasks, r, other, |tasks| - 1)
    ensures Rests(other, |tasks| - 1) <= Rests(greedy, |tasks| - 1)
  {
    GreedyAhead(tasks, r, greedy, other, |tasks| - 1);
  }

  // ---- minutes ----

  ghost function SpanUpTo(tasks: seq<Task>, n: nat): int
    requires n <= |tasks|
  {
    if n == 0 then 0 else SpanUpTo(tasks, n - 1) + (tasks[n - 1].end - tasks[n - 1].start)
  }

  /** Minutes by which tasks start before their predecessor ends. */
  ghost function OverlapUpTo(tasks: seq<Task>, n: nat): int
    requires 0 < n <= |tasks|
  {
    if n == 1 then 0 else OverlapUpTo(tasks, n - 1) + Max(0, tasks[n - 2].end - tasks[n - 1].start)
  }

  lemma {:induction false} NoOverlap(tasks: seq<Task>, n: nat)
    requires 0 < n <= |tasks|
    ensures OverlapUpTo(tasks, n) >= 0
    ensures OverlapUpTo(tasks, n) == 0 <==> forall k :: 0 <= k < n - 1 ==> tasks[k].end <= tasks[k + 1].start
  {
    if n > 1 { NoOverlap(tasks, n - 1); }
  }

  /** Minutes of the first n gaps that were put in one class. */
  ghost function MinutesOf(tasks: seq<Task>, kinds: seq<Kind>, kind: Kind, n: nat): int
    requires n <= |kinds| && n < |tasks|
  {
    if n == 0 then 0
    else MinutesOf(tasks, kinds, kind, n - 1) + (if kinds[n - 1] == kind then GapAfter(tasks, n - 1) else 0)
  }

  /** Work, idle time, breaks and rests tile the duty; only overlaps are counted twice. */
  lemma {:induction false} MinutesTile(tasks: seq<Task>, kinds: seq<Kind>, n: nat)
    requires n <= |kinds| && n < |tasks|
    ensures SpanUpTo(tasks, n + 1)
          + MinutesOf(tasks, kinds, DriverIdle, n)
          + MinutesOf(tasks, kinds, NormalBreak, n)
          + MinutesOf(tasks, kinds, MandatoryRest, n)
         == tasks[n].end - tasks[0].start + OverlapUpTo(tasks, n + 1)
  {
    if n > 0 {
      MinutesTile(tasks, kinds, n - 1);
      assert SpanUpTo(tasks, n + 1) == SpanUpTo(tasks, n) + (tasks[n].end - tasks[n].start);
    } else {
      assert SpanUpTo(tasks, 1) == SpanUpTo(tasks, 0) + (tasks[0].end - tasks[0].start);
    }
  }

  /** A class's minutes are positive iff some gap of positive length is in it. */
  lemma {:induction false} SomeMinutes(tasks: seq<Task>, kinds: seq<Kind>, kind: Kind, n: nat)
    requires n <= |kinds| && n < |tasks|
    ensures MinutesOf(tasks, kinds, kind, n) >= 0
    ensures MinutesOf(tasks, kinds, kind, n) > 0 <==>
      exists k :: 0 <= k < n && kinds[k] == kind && GapAfter(tasks, k) > 0
  {
    if n > 0 { SomeMinutes(tasks, kinds, kind, n - 1); }
  }

  // ---- the scan itself ----

  function WasRest(kinds: seq<Kind>): (choice: seq<bool>)
    ensures |choice| == |kinds| && forall k :: 0 <= k < |kinds| ==> (choice[k] <==> kinds[k] == MandatoryRest)
  {
    seq(|kinds|, k requires 0 <= k < |kinds| => kinds[k] == MandatoryRest)
  }

  /** How the gaps that are no rest are told apart. */
  ghost predicate BreaksRight(tasks: seq<Task>, r: Rules, kinds: seq<Kind>, n: nat)
    requires n <= |kinds| && n < |tasks|
  {
    forall k :: 0 <= k < n && GapAfter(tasks, k) > 0 && kinds[k] != MandatoryRest ==>
      (kinds[k] == NormalBreak <==> GapAfter(tasks, k) >= Max(0, r.minBreak))
  }

  lemma {:induction false} SinceAgree(tasks: seq<Task>, a: seq<bool>, b: seq<bool>, k: nat)
    requires k < |tasks| && k <= |a| && k <= |b| && forall i :: 0 <= i < k ==> a[i] == b[i]
    ensures Since(tasks, a, k) == Since(tasks, b, k)
  {
    if k > 0 && !a[k - 1] { SinceAgree(tasks, a, b, k - 1); }
  }

  lemma {:induction false} MinutesAgree(tasks: seq<Task>, a: seq<Kind>, b: seq<Kind>, kind: Kind, n: nat)
    requires n <= |a| && n <= |b| && n < |tasks| && forall i :: 0 <= i < n ==> a[i] == b[i]
    ensures MinutesOf(tasks, a, kind, n) == MinutesOf(tasks, b, kind, n)
  {
    if n > 0 { MinutesAgree(tasks, a, b, kind, n - 1); }
  }

  datatype Totals = Totals(idle: int, normalBreak: int, mandatoryRest: int)

  ghost predicate TotalsRight(tasks: seq<Task>, kinds: seq<Kind>, t: Totals)
    requires |kinds| < |tasks|
  {
    && t.idle == MinutesOf(tasks, kinds, DriverIdle, |kinds|)
    && t.normalBreak == MinutesOf(tasks, kinds, NormalBreak, |kinds|)
    && t.mandatoryRest == MinutesOf(tasks, kinds, MandatoryRest, |kinds|)
  }

  /** The next gap's class, given the driving since the last rest. */
  function Classify(tasks: seq<Task>, r: Rules, k: nat, driven: int): Kind
    requires k + 1 < |tasks|
  {
    if Eligible(tasks, r, k) && driven >= r.restAfter then MandatoryRest
    else if GapAfter(tasks, k) >= Max(0, r.minBreak) then NormalBreak
    else DriverIdle
  }

  function AddGap(t: Totals, kind: Kind, gap: int): Totals {
    match kind
    case MandatoryRest => t.(mandatoryRest := t.mandatoryRest + gap)
    case NormalBreak => t.(normalBreak := t.normalBreak + gap)
    case DriverIdle => t.(idle := t.idle + gap)
  }

  lemma StepGreedy(tasks: seq<Task>, r: Rules, before: seq<bool>, after: seq<bool>, n: nat, driven: int)
    requires n == |before| && n + 1 == |after| && n + 1 < |tasks|
    requires forall i :: 0 <= i < n ==> before[i] == after[i]
    requires GreedyChoice(tasks, r, before, n) && driven == Since(tasks, before, n)
    requires after[n] <==> Eligible(tasks, r, n) && driven >= r.restAfter
    ensures GreedyChoice(tasks, r, after, n + 1)
    ensures Since(tasks, after, n + 1) == (if after[n] then 0 else driven) + tasks[n + 1].drive
  {
    hide Eligible;
    SinceAgree(tasks, after, before, n);
    GreedyAgree(tasks, r, before, after, n);
  }

  lemma GreedyAgree(tasks: seq<Task>, r: Rules, a: seq<bool>, b: seq<bool>, n: nat)
    requires n <= |a| && n <= |b| && n < |tasks| && forall i :: 0 <= i < n ==> a[i] == b[i]
    requires GreedyChoice(tasks, r, a, n)
    ensures GreedyChoice(tasks, r, b, n)
  {
    hide Eligible;
    forall k | 0 <= k < n ensures b[k] <==> Eligible(tasks, r, k) && Since(tasks, b, k) >= r.restAfter {
      SinceAgree(tasks, a, b, k);
    }
  }

  lemma RestIff(tasks: seq<Task>, r: Rules, k: nat, driven: int)
    requires k + 1 < |tasks|
    ensures Classify(tasks, r, k, driven) == MandatoryRest <==> Eligible(tasks, r, k) && driven >= r.restAfter
  {
  }

  lemma StepTotals(tasks: seq<Task>, r: Rules, kinds: seq<Kind>, totals: Totals, kind: Kind)
    requires |kinds| + 1 < |tasks| && TotalsRight(tasks, kinds, totals)
    ensures TotalsRight(tasks, kinds + [kind], AddGap(totals, kind, GapAfter(tasks, |kinds|)))
  {
    hide GapAfter;
    var more := kinds + [kind];
    MinutesAgree(tasks, more, kinds, DriverIdle, |kinds|);
    MinutesAgree(tasks, more, kinds, NormalBreak, |kinds|);
    MinutesAgree(tasks, more, kinds, MandatoryRest, |kinds|);
  }

  /** What holds of the loop's variables once the first gaps are classified. */
  ghost predicate Scanned(tasks: seq<Task>, r: Rules, kinds: seq<Kind>, totals: Totals)
    requires |kinds| < |tasks|
  {
    && GreedyChoice(tasks, r, WasRest(kinds), |kinds|)
    && BreaksRight(tasks, r, kinds, |kinds|)
    && TotalsRight(tasks, kinds, totals)
  }

  /** One more classified gap keeps the scan greedy and its totals right. */
  lemma ScanStep(tasks: seq<Task>, r: Rules, kinds: seq<Kind>, totals: Totals, driven: int)
    requires |kinds| + 1 < |tasks| && Scanned(tasks, r, kinds, totals)
    requires driven == Since(tasks, WasRest(kinds), |kinds|)
    ensures var kind := Classify(tasks, r, |kinds|, driven); var more := kinds + [kind];
      && Scanned(tasks, r, more, AddGap(totals, kind, GapAfter(tasks, |kinds|)))
      && Since(tasks, WasRest(more), |more|) == (if kind == MandatoryRest then 0 else driven) + tasks[|more|].drive
  {
    hide Since, GapAfter, TotalsRight, WasRest, GreedyChoice, Eligible;
    var kind := Classify(tasks, r, |kinds|, driven);
    RestIff(tasks, r, |kinds|, driven);
    StepGreedy(tasks, r, WasRest(kinds), WasRest(kinds + [kind]), |kinds|, driven);
    StepTotals(tasks, r, kinds, totals, kind);
  }

  /** The loop over the tasks: segments, totals, and the class of every gap. */
  method Scan(tasks: seq<Task>, r: Rules) returns (segments: seq<Segment>, totals: Totals, ghost kinds: seq<Kind>)
    requires tasks != []
    ensures |kinds| == |tasks| - 1 && Scanned(tasks, r, kinds, totals)
    ensures segments == SegmentsOf(tasks, kinds, |tasks|)
  {
    hide Scanned, WasRest, Since, SegmentsOf, SegmentsAt;
    segments, totals, kinds := [], Totals(0, 0, 0), [];
    var driven := 0;
    NothingScanned(tasks, r);
    for index := 0 to |tasks|
      invariant |kinds| == Min(index, |tasks| - 1) && Scanned(tasks, r, kinds, totals)
      invariant index < |tasks| ==> driven + tasks[index].drive == Since(tasks, WasRest(kinds), index)
      invariant segments == SegmentsOf(tasks, kinds, index)
    {
      var added;
      ghost var known := kinds;
      added, totals, driven, kinds := ScanTask(tasks, r, index, totals, driven, kinds);
      SegmentsMore(tasks, known, kinds, index);
      segments := segments + added;
    }
  }

  lemma NothingScanned(tasks: seq<Task>, r: Rules)
    requires tasks != []
    ensures SegmentsOf(tasks, [], 0) == [] && Scanned(tasks, r, [], Totals(0, 0, 0))
    ensures Since(tasks, WasRest([]), 0) == tasks[0].drive
  {
  }

  /** One task and the gap after it. */
  method ScanTask(tasks: seq<Task>, r: Rules, index: nat, totals: Totals, driven: int, ghost kinds: seq<Kind>)
    returns (added: seq<Segment>, totals': Totals, driven': int, ghost kinds': seq<Kind>)
    requires index == |kinds| < |tasks| && Scanned(tasks, r, kinds, totals)
    requires driven + tasks[index].drive == Since(tasks, WasRest(kinds), index)
    ensures kinds <= kinds' && |kinds'| == Min(index + 1, |tasks| - 1) && Scanned(tasks, r, kinds', totals')
    ensures index + 1 < |tasks| ==> driven' + tasks[index + 1].drive == Since(tasks, WasRest(kinds'), index + 1)
    ensures added == SegmentsAt(tasks, kinds', index)
  {
    hide Scanned, WasRest, Eligible, Since, GapAfter, Classify, AddGap;
    var task := tasks[index];
    totals', kinds' := totals, kinds;
    added := [Work(task.start, task.end, task.drive)];
    driven' := driven + task.drive;
    if index < |tasks| - 1 {
      ScanStep(tasks, r, kinds, totals, driven');
      var next := tasks[index + 1];
      if task.sourceBlock != next.sourceBlock {
        added := added + [VehicleChange(task.end, task.sourceBlock, next.sourceBlock)];
      }
      var gap := GapAfter(tasks, index);
      var kind := Classify(tasks, r, index, driven');
      kinds' := kinds + [kind];
      totals' := AddGap(totals, kind, gap);
      if kind == MandatoryRest {
        driven' := 0;
      }
      if gap > 0 {
        added := added + [Gap(kind, task.end, next.start)];
      }
    }
  }

  /** The segments of task k and of the gap after it. */
  ghost function SegmentsAt(tasks: seq<Task>, kinds: seq<Kind>, k: nat): seq<Segment>
    requires k < |tasks| && (k < |tasks| - 1 ==> k < |kinds|)
  {
    var task := tasks[k];
    var work := [Work(task.start, task.end, task.drive)];
    if k == |tasks| - 1 then work else
    var next := tasks[k + 1];
    var change := if task.sourceBlock == next.sourceBlock then work
                  else work + [VehicleChange(task.end, task.sourceBlock, next.sourceBlock)];
    if GapAfter(tasks, k) > 0 then change + [Gap(kinds[k], task.end, next.start)] else change
  }

  /** The segments of the first n tasks and the gaps that follow them. */
  ghost function SegmentsOf(tasks: seq<Task>, kinds: seq<Kind>, n: nat): seq<Segment>
    requires n <= |tasks| && |kinds| < |tasks| && Min(n, |tasks| - 1) <= |kinds|
  {
    if n == 0 then [] else SegmentsOf(tasks, kinds, n - 1) + SegmentsAt(tasks, kinds, n - 1)
  }

  lemma {:induction false} SegmentsAgree(tasks: seq<Task>, a: seq<Kind>, b: seq<Kind>, n: nat)
    requires n < |tasks| && |a| < |tasks| && |b| < |tasks| && n <= |a| && n <= |b|
    requires forall i :: 0 <= i < n ==> a[i] == b[i]
    ensures SegmentsOf(tasks, a, n) == SegmentsOf(tasks, b, n)
  {
    if n > 0 { SegmentsAgree(tasks, a, b, n - 1); }
  }

  lemma SegmentsMore(tasks: seq<Task>, before: seq<Kind>, after: seq<Kind>, n: nat)
    requires n < |tasks| && |before| < |tasks| && |after| < |tasks| && n <= |before|
    requires Min(n + 1, |tasks| - 1) <= |after|
    requires forall i :: 0 <= i < |before| && i < |after| ==> before[i] == after[i]
    ensures SegmentsOf(tasks, after, n + 1) == SegmentsOf(tasks, before, n) + SegmentsAt(tasks, after, n)
  {
    SegmentsAgree(tasks, before, after, n);
  }
}
