// The event sweep of `_bodin_golden_lb`: the largest number of trips under way at one time.
module Sweep {
  import opened Domain
  import opened Sorting

  predicate Active(t: Trip, time: int) {
    t.start <= time < t.end
  }

  /** How many of the first n trips are under way at the given time. */
  ghost function LoadTo(trips: Chain, time: int, n: nat): nat
    requires n <= |trips|
  {
    if n == 0 then 0 else LoadTo(trips, time, n - 1) + (if Active(trips[n - 1], time) then 1 else 0)
  }

  ghost function Load(trips: Chain, time: int): nat {
    LoadTo(trips, time, |trips|)
  }

  // An event is keyed by (time, delta), so at equal times ends sort before starts.
  type Event = Keyed<int>

  ghost predicate EventShape(events: seq<Event>) {
    forall i :: 0 <= i < |events| ==>
      |events[i].key| == 2 && events[i].key[1] == events[i].item && (events[i].item == 1 || events[i].item == -1)
  }

  /** Running total after the first k events. */
  ghost function Prefix(events: seq<Event>, k: nat): int
    requires k <= |events|
  {
    if k == 0 then 0 else Prefix(events, k - 1) + events[k - 1].item
  }

  /** Contribution of an event up to and including the given time. */
  ghost function Upto(e: Event, time: int): int {
    if e.key != [] && e.key[0] <= time then e.item else 0
  }

  ghost function SumUpto(events: seq<Event>, time: int): int {
    if events == [] then 0 else Upto(events[0], time) + SumUpto(events[1..], time)
  }

  lemma {:induction false} SumUptoInsert(x: Event, events: seq<Event>, time: int)
    ensures SumUpto(Insert(x, events), time) == Upto(x, time) + SumUpto(events, time)
  {
    if events == [] || LexLe(x.key, events[0].key) {
      assert ([x] + events)[1..] == events;
    } else {
      SumUptoInsert(x, events[1..], time);
      assert ([events[0]] + Insert(x, events[1..]))[1..] == Insert(x, events[1..]);
    }
  }

  lemma {:induction false} SumUptoSort(events: seq<Event>, time: int)
    ensures SumUpto(Sort(events), time) == SumUpto(events, time)
  {
    if events != [] {
      SumUptoSort(events[1..], time);
      SumUptoInsert(events[0], Sort(events[1..]), time);
    }
  }

  lemma {:induction false} SumUptoConcat(a: seq<Event>, b: seq<Event>, time: int)
    ensures SumUpto(a + b, time) == SumUpto(a, time) + SumUpto(b, time)
  {
    if a == [] {
      assert a + b == b;
    } else {
      assert (a + b)[1..] == a[1..] + b;
      SumUptoConcat(a[1..], b, time);
    }
  }

  /** In sorted order, the total of all events up to a time is the running total at the last of them. */
  lemma {:induction false} SumUptoIsPrefix(events: seq<Event>, time: int, cut: nat)
    requires EventShape(events) && cut <= |events|
    requires forall i :: 0 <= i < cut ==> events[i].key[0] <= time
    requires forall i :: cut <= i < |events| ==> events[i].key[0] > time
    ensures SumUpto(events, time) == Prefix(events, cut)
  {
    SumAllBelow(events[..cut], time, cut);
    SumNoneBelow(events[cut..], time);
    assert events == events[..cut] + events[cut..];
    SumUptoConcat(events[..cut], events[cut..], time);
    PrefixAgree(events, events[..cut], cut);
  }

  lemma {:induction false} PrefixAgree(a: seq<Event>, b: seq<Event>, n: nat)
    requires n <= |a| && n <= |b| && forall i :: 0 <= i < n ==> a[i] == b[i]
    ensures Prefix(a, n) == Prefix(b, n)
  {
    if n > 0 { PrefixAgree(a, b, n - 1); }
  }

  lemma {:induction false} SumAllBelow(events: seq<Event>, time: int, n: nat)
    requires n == |events| && EventShape(events)
    requires forall i :: 0 <= i < |events| ==> events[i].key[0] <= time
    ensures SumUpto(events, time) == Prefix(events, n)
  {
    if n > 0 {
      var front := events[..n - 1];
      SumAllBelow(front, time, n - 1);
      PrefixAgree(events, front, n - 1);
      assert events == front + [events[n - 1]];
      SumUptoConcat(front, [events[n - 1]], time);
      assert [events[n - 1]][1..] == [];
    }
  }

  lemma {:induction false} SumNoneBelow(events: seq<Event>, time: int)
    requires EventShape(events)
    requires forall i :: 0 <= i < |events| ==> events[i].key[0] > time
    ensures SumUpto(events, time) == 0
  {
    if events != [] { SumNoneBelow(events[1..], time); }
  }

  /** Position just after the last event at or before a time. */
  lemma CutAt(events: seq<Event>, time: int) returns (cut: nat)
    requires EventShape(events) && Sorted(events)
    ensures cut <= |events|
    ensures forall i :: 0 <= i < cut ==> events[i].key[0] <= time
    ensures forall i :: cut <= i < |events| ==> events[i].key[0] > time
  {
    cut := 0;
    while cut < |events| && events[cut].key[0] <= time
      invariant cut <= |events|
      invariant forall i :: 0 <= i < cut ==> events[i].key[0] <= time
    {
      cut := cut + 1;
    }
    forall i | cut <= i < |events| ensures events[i].key[0] > time {
      if i > cut { assert LexLe(events[cut].key, events[i].key); }
    }
  }

  /** At a peak of the running total, the load at the time of the last event is at least the peak. */
  lemma PeakIsReached(events: seq<Event>, k: nat) returns (time: int)
    requires EventShape(events) && Sorted(events)
    requires 0 < k <= |events| && Prefix(events, k) > 0
    requires forall j :: 0 <= j <= |events| ==> Prefix(events, j) <= Prefix(events, k)
    ensures SumUpto(events, time) == Prefix(events, k)
  {
    time := events[k - 1].key[0];
    assert Prefix(events, k) == Prefix(events, k - 1) + events[k - 1].item;
    assert events[k - 1].item == 1;
    var cut := CutAt(events, time);
    SumUptoIsPrefix(events, time, cut);
    assert k <= cut;
    var j := k;
    while j < cut
      invariant k <= j <= cut && Prefix(events, j) >= Prefix(events, k)
    {
      assert LexLe(events[k - 1].key, events[j].key);
      assert events[j].item == 1 by {
        var a, b := events[k - 1].key, events[j].key;
        assert a == [time, 1] && b == [b[0], b[1]];
        LexPair(time, 1, b[0], b[1]);
      }
      j := j + 1;
    }
  }

  /** The events of the first n trips total the load. */
  lemma {:induction false} EventsTotalLoad(trips: Chain, time: int, n: nat)
    requires n <= |trips|
    requires forall i :: 0 <= i < n ==> trips[i].start <= trips[i].end
    ensures SumUpto(EventsOf(trips, n), time) == LoadTo(trips, time, n)
  {
    if n > 0 {
      var open, close := Keyed([trips[n - 1].start, 1], 1), Keyed([trips[n - 1].end, -1], -1);
      EventsTotalLoad(trips, time, n - 1);
      SumUptoConcat(EventsOf(trips, n - 1), [open, close], time);
      SumUptoConcat([open], [close], time);
      SumUptoOne(open, time);
      SumUptoOne(close, time);
      assert [open, close] == [open] + [close];
    }
  }

  lemma SumUptoOne(e: Event, time: int)
    ensures SumUpto([e], time) == Upto(e, time)
  {
    assert [e][1..] == [];
  }

  ghost function EventsOf(trips: Chain, n: nat): (events: seq<Event>)
    requires n <= |trips|
    ensures EventShape(events)
  {
    if n == 0 then [] else
    EventsOf(trips, n - 1) + [Keyed([trips[n - 1].start, 1], 1), Keyed([trips[n - 1].end, -1], -1)]
  }

  lemma ShapeKept(events: seq<Event>)
    requires EventShape(events)
    ensures EventShape(Sort(events))
  {
    var s := Sort(events);
    forall i | 0 <= i < |s| ensures s[i] in events {
      assert s[i] in multiset(events);
    }
  }

  /** After the last sorted event up to a time, the running count is the number of trips under way then. */
  lemma RunningCountIsLoad(trips: Chain, time: int, cut: nat)
    requires forall i :: 0 <= i < |trips| ==> trips[i].start <= trips[i].end
    requires var events := Sort(EventsOf(trips, |trips|));
      && cut <= |events| && (forall i :: 0 <= i < |events| ==> |events[i].key| == 2)
      && (forall i :: 0 <= i < |events| ==> (i < cut <==> events[i].key[0] <= time))
    ensures Prefix(Sort(EventsOf(trips, |trips|)), cut) == Load(trips, time)
  {
    hide Sort, LexLe;
    var listed := EventsOf(trips, |trips|);
    ShapeKept(listed);
    SumUptoIsPrefix(Sort(listed), time, cut);
    SumUptoSort(listed, time);
    EventsTotalLoad(trips, time, |trips|);
  }

  /** `_bodin_golden_lb`: the sweep returns exactly the largest number of simultaneous trips. */
  method BodinGoldenBound(trips: Chain) returns (peak: nat)
    requires forall i :: 0 <= i < |trips| ==> trips[i].start <= trips[i].end
    ensures forall time :: Load(trips, time) <= peak
    ensures exists time :: Load(trips, time) == peak
  {
    hide LoadTo, LexLe, Sort, SumUpto, Sorted;
    var events: seq<Event> := [];
    for k := 0 to |trips|
      invariant events == EventsOf(trips, k)
    {
      events := events + [Keyed([trips[k].start, 1], 1)];
      events := events + [Keyed([trips[k].end, -1], -1)];
    }
    ghost var listed := events;
    events := Sort(events);
    SortSorts(listed);
    ShapeKept(listed);
    var concurrent := 0;
    peak := 0;
    ghost var at := 0;
    for k := 0 to |events|
      invariant concurrent == Prefix(events, k)
      invariant at <= k && peak == Prefix(events, at)
      invariant forall j :: 0 <= j <= k ==> Prefix(events, j) <= peak
    {
      concurrent := concurrent + events[k].item;
      if concurrent > peak {
        peak := concurrent;
        at := k + 1;
      }
    }
    forall time ensures Load(trips, time) <= peak && SumUpto(events, time) == Load(trips, time) {
      SumUptoSort(listed, time);
      EventsTotalLoad(trips, time, |trips|);
      var cut := CutAt(events, time);
      SumUptoIsPrefix(events, time, cut);
    }
    if peak > 0 {
      var time := PeakIsReached(events, at);
      assert Load(trips, time) == peak;
    } else {
      assert Load(trips, 0) == peak;
    }
  }
}
