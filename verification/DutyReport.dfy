// The operational-time report of one duty.
module DutyReport {
  import opened Wrappers
  import opened Sorting
  import opened OperationalTime
  import Domain
  import Plans

  datatype Violation = InvalidRestPosition | MandatoryRestMissing

  /** A duty: its tasks with trips, and the figures other services left with it. */
  datatype Duty = Duty(
    tasks: seq<Task>, startBuffer: int, endBuffer: int, startAt: Option<int>, endAt: Option<int>, workTime: int,
    maxContinuousDrive: int)

  /** Which of the two buffers count as driver time. */
  datatype Counting = Counting(pullOut: bool, pullBack: bool)

  datatype Report = Report(
    dutyStart: int, dutyEnd: int, window: int, work: int, pullOut: int, pullBack: int,
    segments: seq<Segment>, totals: Totals, driving: int,
    hasRest: bool, restRequired: bool, invalidPosition: bool, violations: seq<Violation>)

  function KeyTasks(tasks: seq<Task>): (r: seq<Keyed<Task>>)
    ensures |r| == |tasks| && forall i :: 0 <= i < |r| ==> r[i] == Keyed([tasks[i].start, tasks[i].id], tasks[i])
  {
    seq(|tasks|, i requires 0 <= i < |tasks| => Keyed([tasks[i].start, tasks[i].id], tasks[i]))
  }

  /** `_sorted_tasks`: by (start, id). */
  function SortTasks(tasks: seq<Task>): (r: seq<Task>)
    ensures |r| == |tasks|
  {
    Items(Sort(KeyTasks(tasks)))
  }

  /** The same tasks, in ascending order of their starts. */
  ghost predicate InStartOrder(sorted: seq<Task>, tasks: seq<Task>) {
    && multiset(sorted) == multiset(tasks)
    && forall i, j :: 0 <= i < j < |sorted| ==> sorted[i].start <= sorted[j].start
  }

  lemma SortTasksFacts(tasks: seq<Task>)
    ensures InStartOrder(SortTasks(tasks), tasks)
  {
    SortedPairs(KeyTasks(tasks));
    SortKeepsItems(KeyTasks(tasks));
    assert Items(KeyTasks(tasks)) == tasks;
    var s := Sort(KeyTasks(tasks));
    forall i | 0 <= i < |s| ensures s[i].key == [s[i].item.start, s[i].item.id] {
      assert s[i] in s && s[i] in KeyTasks(tasks);
    }
  }

  lemma {:induction false} DriveAgree(a: seq<Task>, b: seq<Task>, n: nat)
    requires n <= |a| && n <= |b| && forall i :: 0 <= i < n ==> a[i] == b[i]
    ensures DriveUpTo(a, n) == DriveUpTo(b, n)
  {
    if n > 0 { DriveAgree(a, b, n - 1); }
  }

  lemma {:induction false} DriveWithout(s: seq<Task>, k: nat, n: nat)
    requires k <= n < |s|
    ensures DriveUpTo(s, n + 1) == DriveUpTo(Plans.Without(s, k), n) + s[k].drive
  {
    if n == k {
      DriveAgree(Plans.Without(s, k), s, k);
    } else {
      DriveWithout(s, k, n - 1);
    }
  }

  /** The driving total does not depend on the order of the tasks. */
  lemma {:induction false} DrivePermutes(a: seq<Task>, b: seq<Task>)
    requires multiset(a) == multiset(b)
    ensures DriveUpTo(a, |a|) == DriveUpTo(b, |b|)
    decreases |a|
  {
    assert |a| == |multiset(a)| == |b|;
    if a == [] { return; }
    hide DriveUpTo;
    var k := Plans.PlaceOf(b, a[0]);
    DriveWithout(a, 0, |a| - 1);
    DriveWithout(b, k, |b| - 1);
    Plans.Unplug(a, 0);
    Plans.Unplug(b, k);
    Plans.CancelOne(multiset(Plans.Without(a, 0)), multiset(Plans.Without(b, k)), a[0]);
    DrivePermutes(Plans.Without(a, 0), Plans.Without(b, k));
  }

  /** A valid way to take at least one rest exists. */
  ghost predicate RestPossible(tasks: seq<Task>, r: Rules) {
    exists choice: seq<bool> :: |tasks| > 0 && |choice| == |tasks| - 1
      && ValidChoice(tasks, r, choice, |tasks| - 1) && Rests(choice, |tasks| - 1) > 0
  }

  lemma {:induction false} RestsPositive(choice: seq<bool>, n: nat)
    requires n <= |choice|
    ensures Rests(choice, n) > 0 <==> exists k :: 0 <= k < n && choice[k]
  {
    if n > 0 { RestsPositive(choice, n - 1); }
  }

  /** Rest minutes are reported exactly when some valid rest was possible at all. */
  lemma RestReported(tasks: seq<Task>, r: Rules, kinds: seq<Kind>, totals: Totals)
    requires |tasks| > 0 && |kinds| == |tasks| - 1 && Scanned(tasks, r, kinds, totals)
    requires forall t :: t in tasks ==> t.drive >= 0
    ensures totals.mandatoryRest > 0 <==> RestPossible(tasks, r)
  {
    var n := |tasks| - 1;
    var greedy := WasRest(kinds);
    SomeMinutes(tasks, kinds, MandatoryRest, n);
    RestsPositive(greedy, n);
    assert forall k :: 0 <= k < n && greedy[k] ==> GapAfter(tasks, k) > 0;
    if RestPossible(tasks, r) {
      var other: seq<bool> :| |other| == n && ValidChoice(tasks, r, other, n) && Rests(other, n) > 0;
      GreedyIsOptimal(tasks, r, greedy, other);
    }
    if Rests(greedy, n) > 0 {
      assert ValidChoice(tasks, r, greedy, n);
    }
  }

  /** The figures a report must satisfy for its sorted tasks. */
  ghost predicate Faithful(report: Report, tasks: seq<Task>, r: Rules, duty: Duty) {
    && (tasks != [] ==>
        SpanUpTo(tasks, |tasks|) + report.totals.idle + report.totals.normalBreak + report.totals.mandatoryRest
        == tasks[|tasks| - 1].end - tasks[0].start + OverlapUpTo(tasks, |tasks|))
    && ((forall t :: t in tasks ==> t.drive >= 0) ==> (report.hasRest <==> RestPossible(tasks, r)))
    && (tasks != [] ==> (MandatoryRestMissing in report.violations <==>
        r.requiredRest > 0 && !report.hasRest && duty.maxContinuousDrive > r.restAfter))
    && (report.restRequired <==> report.hasRest || MandatoryRestMissing in report.violations)
  }

  // ---- the window of the duty ----

  function StartBuffer(duty: Duty, counts: Counting): int {
    if counts.pullOut then Max(0, duty.startBuffer) else 0
  }

  function EndBuffer(duty: Duty, counts: Counting): int {
    if counts.pullBack then Max(0, duty.endBuffer) else 0
  }

  /** What precedes the first task: a pull-out at the start of a block, a hand-over elsewhere. */
  function Opening(first: Task, duty: Duty, counts: Counting, at: int): seq<Segment> {
    [DutyStart(at)] +
    if !first.blockStart then [HandOver(first.start, first.sourceBlock, true)]
    else if StartBuffer(duty, counts) > 0 then [PullOut(first.start - StartBuffer(duty, counts), first.start)]
    else []
  }

  function Closing(last: Task, duty: Duty, counts: Counting, at: int): seq<Segment> {
    (if !last.blockEnd then [HandOver(last.end, last.sourceBlock, false)]
     else if EndBuffer(duty, counts) > 0 then [PullBack(last.end, last.end + EndBuffer(duty, counts))]
     else []) + [DutyEnd(at)]
  }

  /** The `duration` of a segment. */
  function Length(s: Segment): int {
    if s.Work? || s.Gap? || s.PullOut? || s.PullBack? then s.end - s.start else 0
  }

  function TotalLength(s: seq<Segment>): int {
    if s == [] then 0 else TotalLength(s[..|s| - 1]) + Length(s[|s| - 1])
  }

  lemma {:induction false} LengthConcat(a: seq<Segment>, b: seq<Segment>)
    ensures TotalLength(a + b) == TotalLength(a) + TotalLength(b)
  {
    if b == [] {
      assert a + b == a;
    } else {
      assert (a + b)[..|a + b| - 1] == a + b[..|b| - 1];
      LengthConcat(a, b[..|b| - 1]);
    }
  }

  lemma LengthAt(tasks: seq<Task>, kinds: seq<Kind>, k: nat)
    requires k < |tasks| && |kinds| == |tasks| - 1
    ensures TotalLength(SegmentsAt(tasks, kinds, k)) ==
      tasks[k].end - tasks[k].start + (if k == |tasks| - 1 then 0 else GapAfter(tasks, k))
  {
    var work := Work(tasks[k].start, tasks[k].end, tasks[k].drive);
    assert TotalLength([work]) == TotalLength([]) + Length(work);
    if k < |tasks| - 1 {
      var change := VehicleChange(tasks[k].end, tasks[k].sourceBlock, tasks[k + 1].sourceBlock);
      var gap := Gap(kinds[k], tasks[k].end, tasks[k + 1].start);
      LengthConcat([work], [change]);
      LengthConcat([work], [gap]);
      LengthConcat([work] + [change], [gap]);
      assert TotalLength([change]) == TotalLength([]) + 0 && TotalLength([gap]) == TotalLength([]) + Length(gap);
    }
  }

  lemma LengthMore(tasks: seq<Task>, kinds: seq<Kind>, n: nat)
    requires n < |tasks| && |kinds| == |tasks| - 1
    ensures TotalLength(SegmentsOf(tasks, kinds, n + 1)) == TotalLength(SegmentsOf(tasks, kinds, n)) +
      tasks[n].end - tasks[n].start + (if n == |tasks| - 1 then 0 else GapAfter(tasks, n))
  {
    hide SegmentsAt, TotalLength, GapAfter;
    LengthAt(tasks, kinds, n);
    LengthConcat(SegmentsOf(tasks, kinds, n), SegmentsAt(tasks, kinds, n));
  }

  /** Up to the start of task n: the time since the first start, plus what overlaps. */
  lemma {:induction false} SegmentsReach(tasks: seq<Task>, kinds: seq<Kind>, n: nat)
    requires n < |tasks| && |kinds| == |tasks| - 1
    ensures TotalLength(SegmentsOf(tasks, kinds, n)) == tasks[n].start - tasks[0].start + OverlapUpTo(tasks, n + 1)
  {
    hide SegmentsOf, TotalLength, OverlapUpTo, GapAfter;
    if n == 0 {
      NoSegments(tasks, kinds);
      return;
    }
    OverlapMore(tasks, n);
    SegmentsReach(tasks, kinds, n - 1);
    LengthMore(tasks, kinds, n - 1);
  }

  lemma NoSegments(tasks: seq<Task>, kinds: seq<Kind>)
    requires tasks != [] && |kinds| == |tasks| - 1
    ensures TotalLength(SegmentsOf(tasks, kinds, 0)) == OverlapUpTo(tasks, 1) == 0
  {
  }

  /** A gap is what the next start lies behind this end, or else an overlap. */
  lemma OverlapMore(tasks: seq<Task>, n: nat)
    requires 0 < n < |tasks|
    ensures tasks[n - 1].end + GapAfter(tasks, n - 1) ==
      tasks[n].start + OverlapUpTo(tasks, n + 1) - OverlapUpTo(tasks, n)
  {
  }

  /** The segments of the tasks and gaps fill the time from the first start to the last end, plus what overlaps. */
  lemma SegmentsFill(tasks: seq<Task>, kinds: seq<Kind>)
    requires |tasks| > 0 && |kinds| == |tasks| - 1
    ensures TotalLength(SegmentsOf(tasks, kinds, |tasks|)) ==
      tasks[|tasks| - 1].end - tasks[0].start + OverlapUpTo(tasks, |tasks|)
  {
    hide SegmentsOf, TotalLength;
    SegmentsReach(tasks, kinds, |tasks| - 1);
    LengthMore(tasks, kinds, |tasks| - 1);
  }

  /**
   * The report's segments: the opening, the tasks with their gaps, the closing. Unless the caller set them, the
   * window's ends follow from the tasks and the buffers that count; then the lengths of the segments make up the
   * window and all overlaps, but for a buffer that counts at an end where a vehicle is handed over.
   */
  ghost predicate Accounted(report: Report, tasks: seq<Task>, r: Rules, duty: Duty, counts: Counting)
    requires tasks != []
  {
    var first, last := tasks[0], tasks[|tasks| - 1];
    var before, after := StartBuffer(duty, counts), EndBuffer(duty, counts);
    var missing := (if first.blockStart then 0 else before) + (if last.blockEnd then 0 else after);
    && report.dutyStart == (if duty.startAt.Some? then duty.startAt.value else first.start - before)
    && report.dutyEnd == (if duty.endAt.Some? then duty.endAt.value else last.end + after)
    && report.window == Max(0, report.dutyEnd - report.dutyStart)
    && report.pullOut == Max(0, duty.startBuffer) && report.pullBack == Max(0, duty.endBuffer)
    && report.work == (if duty.workTime != 0 then duty.workTime else report.driving)
    && Explained(tasks, r, Opening(first, duty, counts, report.dutyStart), report.segments,
                 Closing(last, duty, counts, report.dutyEnd), report.totals)
    && (duty.startAt.None? && duty.endAt.None? && report.dutyStart <= report.dutyEnd ==>
        report.window + OverlapUpTo(tasks, |tasks|) == TotalLength(report.segments) + missing)
  }

  /** Some greedy classification of the gaps explains the segments and the totals. */
  ghost predicate Explained(tasks: seq<Task>, r: Rules, opening: seq<Segment>, segments: seq<Segment>,
                            closing: seq<Segment>, totals: Totals)
    requires tasks != []
  {
    exists kinds: seq<Kind> :: |kinds| == |tasks| - 1 && Scanned(tasks, r, kinds, totals) &&
      segments == opening + SegmentsOf(tasks, kinds, |tasks|) + closing
  }

  lemma Accounts(report: Report, tasks: seq<Task>, r: Rules, duty: Duty, counts: Counting, kinds: seq<Kind>)
    requires tasks != [] && |kinds| == |tasks| - 1 && Scanned(tasks, r, kinds, report.totals)
    requires var first, last := tasks[0], tasks[|tasks| - 1];
      && report.dutyStart ==
           (if duty.startAt.Some? then duty.startAt.value else first.start - StartBuffer(duty, counts))
      && report.dutyEnd == (if duty.endAt.Some? then duty.endAt.value else last.end + EndBuffer(duty, counts))
      && report.window == Max(0, report.dutyEnd - report.dutyStart)
      && report.pullOut == Max(0, duty.startBuffer) && report.pullBack == Max(0, duty.endBuffer)
      && report.work == (if duty.workTime != 0 then duty.workTime else report.driving)
      && report.segments == Opening(first, duty, counts, report.dutyStart) + SegmentsOf(tasks, kinds, |tasks|) +
           Closing(last, duty, counts, report.dutyEnd)
    ensures Accounted(report, tasks, r, duty, counts)
  {
    var first, last := tasks[0], tasks[|tasks| - 1];
    var opening := Opening(first, duty, counts, report.dutyStart);
    var closing := Closing(last, duty, counts, report.dutyEnd);
    LengthConcat(opening + SegmentsOf(tasks, kinds, |tasks|), closing);
    LengthConcat(opening, SegmentsOf(tasks, kinds, |tasks|));
    SegmentsFill(tasks, kinds);
    EndsLength(first, last, duty, counts, report.dutyStart, report.dutyEnd);
    hide Scanned, SegmentsOf, TotalLength, Opening, Closing, OverlapUpTo;
  }

  lemma EndsLength(first: Task, last: Task, duty: Duty, counts: Counting, start: int, end: int)
    ensures TotalLength(Opening(first, duty, counts, start)) ==
      if first.blockStart then StartBuffer(duty, counts) else 0
    ensures TotalLength(Closing(last, duty, counts, end)) == if last.blockEnd then EndBuffer(duty, counts) else 0
  {
    forall s: Segment ensures TotalLength([s]) == Length(s) {
      assert TotalLength([s]) == TotalLength([]) + Length(s);
    }
    var opening, closing := Opening(first, duty, counts, start), Closing(last, duty, counts, end);
    LengthConcat([DutyStart(start)], opening[1..]);
    LengthConcat(closing[..|closing| - 1], [DutyEnd(end)]);
    assert opening == [DutyStart(start)] + opening[1..] && closing == closing[..|closing| - 1] + [DutyEnd(end)];
  }

  method BuildSegments(tasks: seq<Task>, r: Rules, duty: Duty, counts: Counting, dutyStart: int, dutyEnd: int)
    returns (segments: seq<Segment>, totals: Totals, ghost kinds: seq<Kind>)
    requires tasks != []
    ensures |kinds| == |tasks| - 1 && Scanned(tasks, r, kinds, totals)
    ensures segments == Opening(tasks[0], duty, counts, dutyStart) + SegmentsOf(tasks, kinds, |tasks|) +
      Closing(tasks[|tasks| - 1], duty, counts, dutyEnd)
  {
    hide Scanned, SegmentsOf;
    var first, last := tasks[0], tasks[|tasks| - 1];
    var startBuffer, endBuffer := Max(0, duty.startBuffer), Max(0, duty.endBuffer);
    segments := [DutyStart(dutyStart)];
    if first.blockStart && startBuffer > 0 && counts.pullOut {
      segments := segments + [PullOut(first.start - startBuffer, first.start)];
    } else if !first.blockStart {
      segments := segments + [HandOver(first.start, first.sourceBlock, true)];
    }
    assert segments == Opening(first, duty, counts, dutyStart);
    var inner;
    inner, totals, kinds := Scan(tasks, r);
    segments := segments + inner;
    ghost var sofar := segments;
    if last.blockEnd && endBuffer > 0 && counts.pullBack {
      segments := segments + [PullBack(last.end, last.end + endBuffer)];
    } else if !last.blockEnd {
      segments := segments + [HandOver(last.end, last.sourceBlock, false)];
    }
    segments := segments + [DutyEnd(dutyEnd)];
    assert segments == sofar + Closing(last, duty, counts, dutyEnd);
  }

  /** `build_duty_operational_time_report`, without locations, texts and the lists inside a segment. */
  method BuildReport(duty: Duty, minBreak: int, mealBreak: int, restAfter: int, counts: Counting)
    returns (report: Report)
    ensures Faithful(report, SortTasks(duty.tasks), RulesOf(minBreak, mealBreak, restAfter), duty)
    ensures duty.tasks != [] ==>
      Accounted(report, SortTasks(duty.tasks), RulesOf(minBreak, mealBreak, restAfter), duty, counts)
    ensures InStartOrder(SortTasks(duty.tasks), duty.tasks)
    ensures report.driving == DriveUpTo(duty.tasks, |duty.tasks|)
    ensures report.invalidPosition <==> InvalidRestPosition in report.violations
    ensures duty.tasks == [] ==> report.segments == [] && report.violations == []
  {
    hide SortTasks, Accounted, Faithful, RulesOf;
    var tasks, r := SortTasks(duty.tasks), RulesOf(minBreak, mealBreak, restAfter);
    SortTasksFacts(duty.tasks);
    DrivePermutes(tasks, duty.tasks);
    hide InStartOrder;
    if tasks == [] {
      report := Report(0, 0, 0, 0, 0, 0, [], Totals(0, 0, 0), 0, false, false, false, []);
      NothingFaithful(report, r, duty);
      return;
    }
    var startBuffer, endBuffer := Max(0, duty.startBuffer), Max(0, duty.endBuffer);
    var first, last := tasks[0], tasks[|tasks| - 1];
    var dutyStart := Domain.GetOr(duty.startAt, first.start - (if counts.pullOut then startBuffer else 0));
    var dutyEnd := Domain.GetOr(duty.endAt, last.end + (if counts.pullBack then endBuffer else 0));
    var segments, totals;
    ghost var kinds;
    segments, totals, kinds := BuildSegments(tasks, r, duty, counts, dutyStart, dutyEnd);
    hide Opening, Closing, Scanned, SegmentsOf, DriveUpTo;
    var hasRest := totals.mandatoryRest > 0;
    var invalid := r.requiredRest > 0 && (startBuffer >= r.requiredRest || endBuffer >= r.requiredRest);
    var required := r.requiredRest > 0 && (hasRest || duty.maxContinuousDrive > r.restAfter);
    var violations: seq<Violation> := if invalid then [InvalidRestPosition] else [];
    if required && !hasRest {
      violations := violations + [MandatoryRestMissing];
    }
    var driving := DriveUpTo(tasks, |tasks|);
    report := Report(dutyStart, dutyEnd, Max(0, dutyEnd - dutyStart),
                     if duty.workTime != 0 then duty.workTime else driving, startBuffer, endBuffer,
                     segments, totals, driving, hasRest, required, invalid, violations);
    FaithfulReport(report, tasks, r, duty, kinds);
    Accounts(report, tasks, r, duty, counts, kinds);
  }

  lemma RestAsked(tasks: seq<Task>, r: Rules, kinds: seq<Kind>, totals: Totals)
    requires |tasks| > 0 && |kinds| == |tasks| - 1 && Scanned(tasks, r, kinds, totals)
    ensures totals.mandatoryRest > 0 ==> r.requiredRest > 0
  {
    hide BreaksRight, GapAfter, Since, DriveAfter;
    SomeMinutes(tasks, kinds, MandatoryRest, |tasks| - 1);
    if totals.mandatoryRest > 0 {
      var k :| 0 <= k < |tasks| - 1 && kinds[k] == MandatoryRest && GapAfter(tasks, k) > 0;
      assert WasRest(kinds)[k] && Eligible(tasks, r, k);
    }
  }

  lemma ReportFaithful(tasks: seq<Task>, r: Rules, kinds: seq<Kind>, totals: Totals)
    requires |tasks| > 0 && |kinds| == |tasks| - 1 && Scanned(tasks, r, kinds, totals)
    ensures SpanUpTo(tasks, |tasks|) + totals.idle + totals.normalBreak + totals.mandatoryRest
         == tasks[|tasks| - 1].end - tasks[0].start + OverlapUpTo(tasks, |tasks|)
    ensures (forall t :: t in tasks ==> t.drive >= 0) ==> (totals.mandatoryRest > 0 <==> RestPossible(tasks, r))
    ensures totals.mandatoryRest > 0 ==> r.requiredRest > 0
  {
    hide GreedyChoice, BreaksRight, RestPossible, SpanUpTo, OverlapUpTo, MinutesOf, WasRest;
    RestAsked(tasks, r, kinds, totals);
    MinutesTile(tasks, kinds, |tasks| - 1);
    if forall t :: t in tasks ==> t.drive >= 0 {
      RestReported(tasks, r, kinds, totals);
    }
  }

  lemma NothingFaithful(report: Report, r: Rules, duty: Duty)
    requires !report.hasRest && !report.restRequired && report.violations == []
    ensures Faithful(report, [], r, duty)
  {
  }

  lemma FaithfulReport(report: Report, tasks: seq<Task>, r: Rules, duty: Duty, kinds: seq<Kind>)
    requires |tasks| > 0 && |kinds| == |tasks| - 1 && Scanned(tasks, r, kinds, report.totals)
    requires report.hasRest <==> report.totals.mandatoryRest > 0
    requires report.restRequired <==> r.requiredRest > 0 && (report.hasRest || duty.maxContinuousDrive > r.restAfter)
    requires MandatoryRestMissing in report.violations <==> report.restRequired && !report.hasRest
    ensures Faithful(report, tasks, r, duty)
  {
    hide Scanned, SpanUpTo, OverlapUpTo, RestPossible;
    ReportFaithful(tasks, r, kinds, report.totals);
  }
}
