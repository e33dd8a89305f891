// Timed trips and the vehicle-scheduling parameters, as plain values.
module Domain {
  import opened Wrappers
  import opened Sorting

  /** A timetabled trip. Times are minutes; `deadhead` maps a destination stop to the empty-run minutes to it. */
  datatype Trip = Trip(
    id: int,
    line: int,
    start: int,
    end: int,
    origin: int,
    destination: int,
    group: Option<int>,
    original: Option<int>,
    segment: int,
    direction: string,
    depot: Option<int>,
    deadhead: map<int, int>)
  {
    /** Both halves of a split trip, in order, meeting at one place and time. */
    predicate ContinuationOf(other: Trip) {
      && original.Some? && other.original.Some?
      && original == other.original
      && segment == other.segment + 1
      && start == other.end && origin == other.destination
    }

    function DeadheadTo(stop: int): int {
      if stop in deadhead then deadhead[stop] else 0
    }
  }

  /** The trips of one vehicle, in driving order. */
  type Chain = seq<Trip>

  /** The window check of the input audit: every trip lasts a positive time. */
  ghost predicate WellTimed(c: Chain) {
    forall i :: 0 <= i < |c| ==> c[i].start < c[i].end
  }

  ghost predicate WellTimedPool(pool: multiset<Trip>) {
    forall t :: t in pool ==> t.start < t.end
  }

  /** No two trips of the pool share an id. */
  ghost predicate DistinctIds(pool: multiset<Trip>) {
    && (forall t :: t in pool ==> pool[t] == 1)
    && (forall t, u :: t in pool && u in pool && t.id == u.id ==> t == u)
  }

  function KeyTrips(c: Chain): (r: seq<Keyed<Trip>>)
    ensures |r| == |c| && forall i :: 0 <= i < |c| ==> r[i] == Keyed([c[i].start, c[i].id], c[i])
  {
    seq(|c|, i requires 0 <= i < |c| => Keyed([c[i].start, c[i].id], c[i]))
  }

  /** `sorted(trips, key=(start_time, id))`. */
  function SortTrips(c: Chain): Chain {
    Items(Sort(KeyTrips(c)))
  }

  lemma SortTripsFacts(c: Chain)
    ensures |SortTrips(c)| == |c| && multiset(SortTrips(c)) == multiset(c)
    ensures forall i, j :: 0 <= i < j < |c| ==> SortTrips(c)[i].start <= SortTrips(c)[j].start
  {
    SortedPairs(KeyTrips(c));
    SortKeepsItems(KeyTrips(c));
    assert Items(KeyTrips(c)) == c;
    var s := Sort(KeyTrips(c));
    forall i | 0 <= i < |s| ensures s[i].key == [s[i].item.start, s[i].item.id] {
      assert s[i] in s && s[i] in KeyTrips(c);
    }
  }

  /** Integers as the request supplies them; None is an absent key. Booleans carry their documented default. */
  datatype RawParams = RawParams(
    minLayover: Option<int>,
    minBreak: Option<int>,
    tolerance: Option<int>,
    maxShift: Option<int>,
    enforceMinInterval: bool,
    allowMultiLine: bool,
    strictZeroGap: bool,
    strictOperational: bool,
    strictHard: bool)

  /** Every parameter at its default. */
  const DEFAULTS: RawParams := RawParams(None, None, None, None, false, true, false, false, false)

  /** A trip of line 1 at the given times, for examples. */
  function Ride(id: int, start: int, end: int): Trip {
    Trip(id, 1, start, end, 1, 1, None, None, 0, "", None, map[])
  }

  /** What one connection check depends on. */
  datatype Connection = Connection(
    minLayover: int,
    minBreak: int,
    enforceMinInterval: bool,
    tolerance: int,
    strictZeroGap: bool,
    strictOperational: bool,
    strictHard: bool)

  datatype Params = Params(conn: Connection, allowMultiLine: bool, maxShift: int)

  /** `int(params.get(key, default) or default)`: an explicit 0 also becomes the default. */
  function OrDefault(value: Option<int>, default: int): int {
    if value.None? || value.value == 0 then default else value.value
  }

  /** `int(params.get(key, default))`: an explicit 0 stays 0. */
  function GetOr(value: Option<int>, default: int): int {
    if value.None? then default else value.value
  }

  function Extract(raw: RawParams): Params {
    Params(
      Connection(
        OrDefault(raw.minLayover, 8),
        OrDefault(raw.minBreak, 30),
        raw.enforceMinInterval,
        OrDefault(raw.tolerance, 0),
        raw.strictZeroGap,
        raw.strictOperational,
        raw.strictHard),
      raw.allowMultiLine,
      OrDefault(raw.maxShift, 960))
  }
}
