// Pairing outbound and return trips (`infer_round_trip_pairs`).
module RoundTrips {
  import opened Wrappers
  import opened Domain
  import opened Sorting

  function PairWindow(preferred: Option<int>): (w: int)
    ensures 5 <= w <= 90
  {
    Max(5, Min(OrDefault(preferred, 30), 90))
  }

  /** The return trip mirrors the outbound one on its line, within the window, and not in its known direction. */
  predicate Match(a: Trip, b: Trip, window: int) {
    && a.line == b.line
    && 0 <= b.start - a.end <= window
    && a.destination == b.origin && a.origin == b.destination
    && !(a.direction != "" && b.direction != "" && a.direction == b.direction)
  }

  // ---- one line ----

  ghost predicate InOrder(ordered: seq<Trip>) {
    && (forall i, j :: 0 <= i < j < |ordered| ==> ordered[i].start <= ordered[j].start)
    && (forall i, j :: 0 <= i < j < |ordered| ==> ordered[i].id != ordered[j].id && ordered[i].line == ordered[j].line)
  }

  ghost predicate Candidate(ordered: seq<Trip>, used: set<int>, i: nat, k: int, window: int)
    requires i < |ordered|
  {
    i < k < |ordered| && ordered[k].id !in used && Match(ordered[i], ordered[k], window)
  }

  /** The nearest unused match after position i. The scan stops early once gaps exceed the window; nothing is missed. */
  method FindReturn(ordered: seq<Trip>, i: nat, used: set<int>, window: int) returns (best: Option<nat>)
    requires i < |ordered| && InOrder(ordered) && 5 <= window <= 90
    ensures best.Some? ==> Candidate(ordered, used, i, best.value, window)
    ensures best.Some? ==> forall k :: Candidate(ordered, used, i, k, window) ==>
      ordered[best.value].start < ordered[k].start || (ordered[best.value].start == ordered[k].start && best.value <= k)
    ensures best.None? ==> forall k :: !Candidate(ordered, used, i, k, window)
  {
    best := None;
    var trip := ordered[i];
    var bestGap := 1000000000;
    var k := i + 1;
    while k < |ordered| && (ordered[k].id in used || ordered[k].start - trip.end <= window)
      invariant i < k <= |ordered|
      invariant best.Some? ==> best.value < k && Candidate(ordered, used, i, best.value, window)
      invariant best.Some? ==> bestGap == ordered[best.value].start - trip.end
      invariant best.Some? ==> forall j :: j < k && Candidate(ordered, used, i, j, window) ==>
        bestGap < ordered[j].start - trip.end || (bestGap == ordered[j].start - trip.end && best.value <= j)
      invariant best.None? ==> forall j :: j < k ==> !Candidate(ordered, used, i, j, window)
      invariant best.None? ==> bestGap > window
      decreases |ordered| - k
    {
      var next := ordered[k];
      if next.id !in used {
        var gap := next.start - trip.end;
        if gap >= 0 && trip.destination == next.origin && trip.origin == next.destination
          && !(trip.direction != "" && next.direction != "" && trip.direction == next.direction)
          && gap < bestGap
        {
          best, bestGap := Some(k), gap;
        }
      }
      k := k + 1;
    }
  }

  // ---- the matching ----

  /** The pair joins the ids of two matching trips of the request. */
  ghost predicate Joins(pair: (int, int), trips: seq<Trip>, window: int) {
    exists a, b :: a in trips && b in trips && Match(a, b, window)
      && pair == (Min(a.id, b.id), Max(a.id, b.id)) && pair.0 < pair.1
  }

  ghost predicate Disjoint(p: (int, int), q: (int, int)) {
    p.0 != q.0 && p.0 != q.1 && p.1 != q.0 && p.1 != q.1
  }

  /** Pairs so far: each joins a match, no two share a trip, and `used` is exactly their trips. */
  ghost predicate Matching(pairs: seq<(int, int)>, used: set<int>, trips: seq<Trip>, window: int) {
    && (forall k :: 0 <= k < |pairs| ==> Joins(pairs[k], trips, window))
    && (forall k, l :: 0 <= k < l < |pairs| ==> Disjoint(pairs[k], pairs[l]))
    && (forall k :: 0 <= k < |pairs| ==> pairs[k].0 in used && pairs[k].1 in used)
    && (forall id :: id in used ==> exists k :: 0 <= k < |pairs| && (pairs[k].0 == id || pairs[k].1 == id))
  }

  /** Among the first n trips in order, no unused one matches a later unused one. */
  ghost predicate NoneLeft(ordered: seq<Trip>, used: set<int>, n: nat, window: int) {
    forall i, k :: 0 <= i < n && i < |ordered| && ordered[i].id !in used ==> !Candidate(ordered, used, i, k, window)
  }

  lemma MatchingMore(pairs: seq<(int, int)>, used: set<int>, trips: seq<Trip>, window: int, a: Trip, b: Trip)
    requires Matching(pairs, used, trips, window)
    requires a in trips && b in trips && Match(a, b, window) && a.id != b.id && a.id !in used && b.id !in used
    ensures Matching(pairs + [(Min(a.id, b.id), Max(a.id, b.id))], used + {a.id, b.id}, trips, window)
  {
    hide Match;
    var pair := (Min(a.id, b.id), Max(a.id, b.id));
    var more := pairs + [pair];
    assert Joins(pair, trips, window);
    forall id | id in used + {a.id, b.id} ensures exists k :: 0 <= k < |more| && (more[k].0 == id || more[k].1 == id) {
      if id in used {
        var k :| 0 <= k < |pairs| && (pairs[k].0 == id || pairs[k].1 == id);
        assert more[k] == pairs[k];
      } else {
        assert more[|pairs|] == pair;
      }
    }
  }

  /** Pairs the trips of one line. */
  method PairLine(ordered: seq<Trip>, pairs: seq<(int, int)>, used: set<int>, trips: seq<Trip>, window: int)
    returns (pairs': seq<(int, int)>, used': set<int>)
    requires InOrder(ordered) && 5 <= window <= 90 && forall i :: 0 <= i < |ordered| ==> ordered[i] in trips
    requires Matching(pairs, used, trips, window)
    ensures Matching(pairs', used', trips, window) && used <= used'
    ensures NoneLeft(ordered, used', |ordered|, window)
  {
    pairs', used' := pairs, used;
    hide Match, Matching;
    for index := 0 to |ordered|
      invariant Matching(pairs', used', trips, window) && used <= used'
      invariant NoneLeft(ordered, used', index, window)
    {
      var trip := ordered[index];
      ghost var before := used';
      if trip.id !in used' {
        var best := FindReturn(ordered, index, used', window);
        if best.Some? {
          var other := ordered[best.value];
          MatchingMore(pairs', used', trips, window, trip, other);
          pairs' := pairs' + [(Min(trip.id, other.id), Max(trip.id, other.id))];
          used' := used' + {trip.id, other.id};
        }
      }
      NoneLeftGrows(ordered, before, used', index, window);
      assert forall i, k :: 0 <= i < index + 1 && ordered[i].id !in used' ==>
        !Candidate(ordered, used', i, k, window);
    }
  }

  lemma NoneLeftGrows(ordered: seq<Trip>, used: set<int>, more: set<int>, n: nat, window: int)
    requires NoneLeft(ordered, used, n, window) && used <= more
    ensures NoneLeft(ordered, more, n, window)
  {
    forall i, k | 0 <= i < n && i < |ordered| && ordered[i].id !in more
      ensures !Candidate(ordered, more, i, k, window)
    {
      assert !Candidate(ordered, used, i, k, window);
    }
  }

  function OfLine(trips: seq<Trip>, line: int, n: nat): seq<Trip>
    requires n <= |trips|
  {
    if n == 0 then []
    else if trips[n - 1].line == line then OfLine(trips, line, n - 1) + [trips[n - 1]]
    else OfLine(trips, line, n - 1)
  }

  ghost predicate IdsApart(s: seq<Trip>) {
    forall i, j :: 0 <= i < j < |s| ==> s[i].id != s[j].id
  }

  lemma {:induction false} OfLineMembers(trips: seq<Trip>, line: int, n: nat)
    requires n <= |trips|
    ensures forall t :: t in OfLine(trips, line, n) <==> t in trips[..n] && t.line == line
  {
    if n > 0 {
      OfLineMembers(trips, line, n - 1);
      assert trips[..n] == trips[..n - 1] + [trips[n - 1]];
    }
  }

  lemma {:induction false} OfLineApart(trips: seq<Trip>, line: int, n: nat)
    requires n <= |trips| && IdsApart(trips)
    ensures IdsApart(OfLine(trips, line, n))
  {
    if n > 0 {
      OfLineApart(trips, line, n - 1);
      OfLineMembers(trips, line, n - 1);
      var s := OfLine(trips, line, n - 1);
      forall i | 0 <= i < |s| ensures s[i].id != trips[n - 1].id {
        assert s[i] in s;
        assert s[i] in trips[..n - 1];
        var k :| 0 <= k < n - 1 && trips[k] == s[i];
      }
    }
  }

  function LineInOrder(trips: seq<Trip>, line: int): seq<Trip> {
    SortTrips(OfLine(trips, line, |trips|))
  }

  lemma LineInOrderFacts(trips: seq<Trip>, line: int)
    requires IdsApart(trips)
    ensures InOrder(LineInOrder(trips, line))
    ensures forall t :: t in LineInOrder(trips, line) <==> t in trips && t.line == line
  {
    hide SortTrips;
    var s, r := OfLine(trips, line, |trips|), LineInOrder(trips, line);
    OfLineMembers(trips, line, |trips|);
    OfLineApart(trips, line, |trips|);
    assert trips[..|trips|] == trips;
    SortTripsFacts(s);
    forall t ensures t in r <==> t in s { assert t in multiset(r) <==> t in multiset(s); }
    PermutedDistinct(s, r);
    assert forall i :: 0 <= i < |r| ==> r[i] in r;
  }

  lemma PermutedDistinct(s: seq<Trip>, r: seq<Trip>)
    requires multiset(s) == multiset(r) && IdsApart(s)
    ensures IdsApart(r)
  {
    forall i, j | 0 <= i < j < |r| ensures r[i].id != r[j].id {
      assert r[i] in multiset(s) && r[j] in multiset(s);
      if r[i].id == r[j].id {
        var a :| 0 <= a < |s| && s[a] == r[i];
        var b :| 0 <= b < |s| && s[b] == r[j];
        assert a == b;
        Repeated(r, i, j);
        OnceCounted(s, a);
        assert false;
      }
    }
  }

  lemma OnceCounted(s: seq<Trip>, a: nat)
    requires a < |s| && IdsApart(s)
    ensures multiset(s)[s[a]] == 1
  {
    assert s == s[..a] + [s[a]] + s[a + 1..];
    assert s[a] !in s[..a] && s[a] !in s[a + 1..];
  }

  /** Line numbers of the request, each once, ascending. */
  function LineList(trips: seq<Trip>, n: nat): (r: seq<int>)
    requires n <= |trips|
    ensures forall line :: line in r <==> exists i :: 0 <= i < n && trips[i].line == line
  {
    if n == 0 then [] else
    var rest := LineList(trips, n - 1);
    if trips[n - 1].line in rest then rest else rest + [trips[n - 1].line]
  }

  function KeyLines(lines: seq<int>): (r: seq<Keyed<int>>)
    ensures |r| == |lines| && forall i :: 0 <= i < |r| ==> r[i] == Keyed([lines[i]], lines[i])
  {
    seq(|lines|, i requires 0 <= i < |lines| => Keyed([lines[i]], lines[i]))
  }

  function SortedLines(trips: seq<Trip>): seq<int> {
    Items(Sort(KeyLines(LineList(trips, |trips|))))
  }

  lemma SortedLinesCover(trips: seq<Trip>)
    ensures forall t :: t in trips ==> t.line in SortedLines(trips)
  {
    var lines := LineList(trips, |trips|);
    SortKeepsItems(KeyLines(lines));
    assert Items(KeyLines(lines)) == lines;
    forall t | t in trips ensures t.line in SortedLines(trips) {
      var i :| 0 <= i < |trips| && trips[i] == t;
      assert trips[i].line in lines;
      assert t.line in multiset(lines);
      assert t.line in multiset(SortedLines(trips));
    }
  }

  /** No two unpaired trips of the request match. */
  ghost predicate Maximal(trips: seq<Trip>, used: set<int>, window: int) {
    forall a, b :: a in trips && b in trips && a.id !in used && b.id !in used ==> !Match(a, b, window)
  }

  /** The ids in the pairs. */
  ghost function Paired(pairs: seq<(int, int)>): set<int> {
    (set k | 0 <= k < |pairs| :: pairs[k].0) + (set k | 0 <= k < |pairs| :: pairs[k].1)
  }

  lemma UsedIsPaired(pairs: seq<(int, int)>, used: set<int>, trips: seq<Trip>, window: int)
    requires Matching(pairs, used, trips, window)
    ensures used == Paired(pairs)
  {
    forall id ensures id in used <==> id in Paired(pairs) {
      if id in used {
        var k :| 0 <= k < |pairs| && (pairs[k].0 == id || pairs[k].1 == id);
      }
    }
  }

  /** `infer_round_trip_pairs`: a maximal matching of mirrored trips. */
  method InferRoundTripPairs(trips: seq<Trip>, preferred: Option<int>) returns (pairs: seq<(int, int)>)
    requires IdsApart(trips)
    requires forall t :: t in trips ==> t.start < t.end
    ensures Matching(pairs, Paired(pairs), trips, PairWindow(preferred))
    ensures Maximal(trips, Paired(pairs), PairWindow(preferred))
  {
    hide Match, PairWindow, Paired, NoneLeft, Matching, SortedLines, LineInOrder, Maximal;
    EmptyMatching(trips, PairWindow(preferred));
    var window := PairWindow(preferred);
    var lines := SortedLines(trips);
    var taken: set<int> := {};
    pairs := [];
    for k := 0 to |lines|
      invariant Matching(pairs, taken, trips, window)
      invariant forall l :: 0 <= l < k ==>
        NoneLeft(LineInOrder(trips, lines[l]), taken, |LineInOrder(trips, lines[l])|, window)
    {
      LineInOrderFacts(trips, lines[k]);
      ghost var before := taken;
      pairs, taken := PairLine(LineInOrder(trips, lines[k]), pairs, taken, trips, window);
      forall l | 0 <= l < k
        ensures NoneLeft(LineInOrder(trips, lines[l]), taken, |LineInOrder(trips, lines[l])|, window)
      {
        NoneLeftGrows(LineInOrder(trips, lines[l]), before, taken, |LineInOrder(trips, lines[l])|, window);
      }
    }
    AllLinesMaximal(trips, lines, taken, window);
    UsedIsPaired(pairs, taken, trips, window);
  }

  lemma EmptyMatching(trips: seq<Trip>, window: int)
    ensures Matching([], {}, trips, window)
  {
  }

  lemma AllLinesMaximal(trips: seq<Trip>, lines: seq<int>, used: set<int>, window: int)
    requires lines == SortedLines(trips)
    requires IdsApart(trips)
    requires forall t :: t in trips ==> t.start < t.end
    requires forall l :: 0 <= l < |lines| ==>
      NoneLeft(LineInOrder(trips, lines[l]), used, |LineInOrder(trips, lines[l])|, window)
    ensures Maximal(trips, used, window)
  {
    forall a, b | a in trips && b in trips && a.id !in used && b.id !in used ensures !Match(a, b, window) {
      if Match(a, b, window) {
        SortedLinesCover(trips);
        var l :| 0 <= l < |lines| && lines[l] == a.line;
        LineInOrderFacts(trips, a.line);
        LineMaximal(LineInOrder(trips, lines[l]), used, window, a, b);
        assert false;
      }
    }
  }

  lemma LineMaximal(ordered: seq<Trip>, used: set<int>, window: int, a: Trip, b: Trip)
    requires InOrder(ordered) && NoneLeft(ordered, used, |ordered|, window)
    requires a in ordered && b in ordered && a.id !in used && b.id !in used && a.start < a.end
    ensures !Match(a, b, window)
  {
    var i :| 0 <= i < |ordered| && ordered[i] == a;
    var j :| 0 <= j < |ordered| && ordered[j] == b;
    assert !Candidate(ordered, used, i, j, window);
    assert Match(a, b, window) ==> i < j;
  }
}
