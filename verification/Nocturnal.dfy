// Night minutes of a trip (`_nocturnal_overlap`).
module Nocturnal {
  import opened Wrappers

  const DAY: int := 1440

  /** The night window in minutes of the day. */
  datatype Window = Window(from: int, until: int)

  function WindowOf(startHour: int, endHour: int): (w: Window)
    ensures 0 <= w.from < DAY && 0 <= w.until < DAY
  {
    Window((startHour % 24) * 60, (endHour % 24) * 60)
  }

  predicate Wraps(w: Window) {
    w.from > w.until
  }

  /** Is this minute a night minute? */
  predicate Night(minute: int, w: Window) {
    var m := minute % DAY;
    if Wraps(w) then m >= w.from || m < w.until else w.from <= m < w.until
  }

  /** Night minutes in [lo, hi), counted one by one. */
  ghost function Count(lo: int, hi: int, w: Window): nat
    decreases hi - lo
  {
    if hi <= lo then 0 else Count(lo, hi - 1, w) + (if Night(hi - 1, w) then 1 else 0)
  }

  lemma {:induction false} CountSplit(lo: int, mid: int, hi: int, w: Window)
    requires lo <= mid <= hi
    ensures Count(lo, hi, w) == Count(lo, mid, w) + Count(mid, hi, w)
    decreases hi - mid
  {
    if mid < hi { CountSplit(lo, mid, hi - 1, w); }
  }

  lemma {:induction false} CountAll(lo: int, hi: int, w: Window)
    requires lo <= hi && forall m :: lo <= m < hi ==> Night(m, w)
    ensures Count(lo, hi, w) == hi - lo
    decreases hi - lo
  {
    if lo < hi { CountAll(lo, hi - 1, w); }
  }

  lemma {:induction false} CountNone(lo: int, hi: int, w: Window)
    requires lo <= hi && forall m :: lo <= m < hi ==> !Night(m, w)
    ensures Count(lo, hi, w) == 0
    decreases hi - lo
  {
    if lo < hi { CountNone(lo, hi - 1, w); }
  }

  /** Length of the intersection of [start, end) and [lo, hi). */
  function Overlap(start: int, end: int, lo: int, hi: int): nat {
    if Min(end, hi) > Max(start, lo) then Min(end, hi) - Max(start, lo) else 0
  }

  function Clamp(x: int, lo: int, hi: int): int {
    Max(lo, Min(x, hi))
  }

  /** Counting a stretch in which the window part is [ws, we). */
  lemma StretchCount(start: int, end: int, lo: int, ws: int, we: int, hi: int, w: Window)
    requires start <= end && lo <= ws <= we <= hi
    requires forall m :: lo <= m < hi ==> (Night(m, w) <==> ws <= m < we)
    ensures Count(Clamp(lo, start, end), Clamp(hi, start, end), w) == Overlap(start, end, ws, we)
  {
    var a, b, c, d := Clamp(lo, start, end), Clamp(ws, start, end), Clamp(we, start, end), Clamp(hi, start, end);
    CountSplit(a, b, d, w);
    CountSplit(b, c, d, w);
    CountNone(a, b, w);
    CountAll(b, c, w);
    CountNone(c, d, w);
  }

  lemma NightInDay(day: int, m: int, w: Window)
    requires 0 <= w.from < DAY && 0 <= w.until < DAY
    ensures day * DAY <= m < (day + 1) * DAY ==>
      (Night(m, w) <==> if Wraps(w) then m >= day * DAY + w.from || m < day * DAY + w.until
                        else day * DAY + w.from <= m < day * DAY + w.until)
  {
    if day * DAY <= m < (day + 1) * DAY {
      assert m / DAY == day && m % DAY == m - day * DAY;
    }
  }

  /** One day of a plain window. */
  lemma PlainDay(start: int, end: int, day: int, w: Window)
    requires start <= end && !Wraps(w) && 0 <= w.from < DAY && 0 <= w.until < DAY
    ensures Count(Clamp(day * DAY, start, end), Clamp((day + 1) * DAY, start, end), w)
         == Overlap(start, end, day * DAY + w.from, day * DAY + w.until)
  {
    forall m | day * DAY <= m < (day + 1) * DAY ensures Night(m, w) <==> day * DAY + w.from <= m < day * DAY + w.until {
      NightInDay(day, m, w);
    }
    StretchCount(start, end, day * DAY, day * DAY + w.from, day * DAY + w.until, (day + 1) * DAY, w);
  }

  /** From one morning's window end to the next one's: evening and following early morning. */
  lemma WrappedNight(start: int, end: int, day: int, w: Window)
    requires start <= end && Wraps(w) && 0 <= w.from < DAY && 0 <= w.until < DAY
    ensures Count(Clamp(day * DAY + w.until, start, end), Clamp((day + 1) * DAY + w.until, start, end), w)
         == Overlap(start, end, day * DAY + w.from, (day + 1) * DAY)
          + Overlap(start, end, (day + 1) * DAY, (day + 1) * DAY + w.until)
  {
    var base := day * DAY;
    forall m | base + w.until <= m < base + DAY + w.until
      ensures Night(m, w) <==> base + w.from <= m < base + DAY + w.until
    {
      NightInDay(day, m, w);
      NightInDay(day + 1, m, w);
    }
    StretchCount(start, end, base + w.until, base + w.from, base + DAY + w.until, base + DAY + w.until, w);
  }

  lemma PlainStep(start: int, end: int, day: int, w: Window, total: nat)
    requires start <= end && !Wraps(w) && 0 <= w.from < DAY && 0 <= w.until < DAY && start / DAY <= day
    requires total == Count(start, Clamp(day * DAY, start, end), w)
    ensures total + Overlap(start, end, day * DAY + w.from, day * DAY + w.until)
         == Count(start, Clamp((day + 1) * DAY, start, end), w)
  {
    hide Count, Overlap;
    PlainDay(start, end, day, w);
    CountSplit(start, Clamp(day * DAY, start, end), Clamp((day + 1) * DAY, start, end), w);
  }

  lemma WrappedStep(start: int, end: int, day: int, w: Window, origin: int, total: nat)
    requires start <= end && Wraps(w) && 0 <= w.from < DAY && 0 <= w.until < DAY && start / DAY <= day
    requires origin == Clamp(start / DAY * DAY + w.until, start, end)
    requires total == Count(origin, Clamp(day * DAY + w.until, start, end), w)
    ensures total + Overlap(start, end, day * DAY + w.from, (day + 1) * DAY)
                  + Overlap(start, end, (day + 1) * DAY, (day + 1) * DAY + w.until)
         == Count(origin, Clamp((day + 1) * DAY + w.until, start, end), w)
  {
    hide Count, Overlap;
    WrappedNight(start, end, day, w);
    CountSplit(origin, Clamp(day * DAY + w.until, start, end), Clamp((day + 1) * DAY + w.until, start, end), w);
  }

  /** The morning of the first day that a wrapping window never looks at. */
  function SkippedMorning(start: int, end: int, w: Window): nat {
    if Wraps(w) then Overlap(start, end, start / DAY * DAY, start / DAY * DAY + w.until) else 0
  }

  /** `_nocturnal_overlap`: the night minutes, less the skipped first morning of a wrapping window. */
  method NocturnalOverlap(start: int, end: int, startHour: int, endHour: int) returns (total: nat)
    ensures start >= end ==> total == 0
    ensures start < end ==>
      total + SkippedMorning(start, end, WindowOf(startHour, endHour)) ==
        Count(start, end, WindowOf(startHour, endHour))
  {
    hide Count, Night, WindowOf, SkippedMorning, Clamp;
    if start >= end {
      return 0;
    }
    var w := WindowOf(startHour, endHour);
    total := 0;
    var firstDay, lastDay := start / DAY, (end + 1439) / DAY;
    ghost var origin := if Wraps(w) then Clamp(firstDay * DAY + w.until, start, end) else start;
    Begin(start, end, w);
    for day := firstDay to lastDay
      invariant !Wraps(w) ==> total == Count(origin, Clamp(day * DAY, start, end), w)
      invariant Wraps(w) ==> total == Count(origin, Clamp(day * DAY + w.until, start, end), w)
    {
      var base := day * DAY;
      if Wraps(w) {
        WrappedStep(start, end, day, w, origin, total);
        var evening := Min(end, base + DAY) - Max(start, base + w.from);
        if evening > 0 { total := total + evening; }
        var morning := Min(end, base + DAY + w.until) - Max(start, base + DAY);
        if morning > 0 { total := total + morning; }
      } else {
        PlainStep(start, end, day, w, total);
        var minutes := Min(end, base + w.until) - Max(start, base + w.from);
        if minutes > 0 { total := total + minutes; }
      }
    }
    Finish(start, end, w);
  }

  /** Nothing is counted before the first day. */
  lemma Begin(start: int, end: int, w: Window)
    requires start < end && 0 <= w.until < DAY
    ensures Count(start, Clamp(start / DAY * DAY, start, end), w) == 0
    ensures var origin := Clamp(start / DAY * DAY + w.until, start, end); Count(origin, origin, w) == 0
    ensures start / DAY <= (end + 1439) / DAY
    ensures Clamp((end + 1439) / DAY * DAY, start, end) == end
    ensures Clamp((end + 1439) / DAY * DAY + w.until, start, end) == end
  {
  }

  /** The minutes before a wrapping window's first morning end are night minutes of the skipped morning. */
  lemma Finish(start: int, end: int, w: Window)
    requires start < end && 0 <= w.from < DAY && 0 <= w.until < DAY
    ensures Wraps(w) ==>
      Count(start, end, w) ==
        SkippedMorning(start, end, w) + Count(Clamp(start / DAY * DAY + w.until, start, end), end, w)
    ensures !Wraps(w) ==> SkippedMorning(start, end, w) == 0
  {
    if Wraps(w) {
      var firstDay := start / DAY;
      var origin := Clamp(firstDay * DAY + w.until, start, end);
      CountSplit(start, origin, end, w);
      forall m | start <= m < origin ensures Night(m, w) {
        NightInDay(firstDay, m, w);
      }
      CountAll(start, origin, w);
    }
  }

  /** The count is exact just when the window does not wrap or the trip starts at or after its morning end. */
  lemma ExactWhen(start: int, end: int, startHour: int, endHour: int, total: nat)
    requires start < end
    requires total + SkippedMorning(start, end, WindowOf(startHour, endHour)) ==
      Count(start, end, WindowOf(startHour, endHour))
    ensures var w := WindowOf(startHour, endHour);
      total == Count(start, end, w) <==> !Wraps(w) || start % DAY >= w.until
  {
  }

  /** With the default window 22h-5h, a trip from 4h to 5h has 60 night minutes and none is counted. */
  lemma EarlyMorningIsMissed()
    ensures Count(240, 300, WindowOf(22, 5)) == 60 && SkippedMorning(240, 300, WindowOf(22, 5)) == 60
  {
    var w := WindowOf(22, 5);
    forall m | 240 <= m < 300 ensures Night(m, w) {}
    CountAll(240, 300, w);
  }
}
