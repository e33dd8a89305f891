// The keys of the two verdict caches, and what they decide.
module CacheKeys {
  import opened Wrappers
  import opened Domain
  import opened Kernel

  // ---- cache keys ----

  datatype EdgeKey = EdgeKey(
    currentId: int, currentStart: int, currentEnd: int, currentDestination: int,
    nextId: int, nextStart: int, nextEnd: int, nextOrigin: int,
    deadhead: int, conn: Connection)

  function EdgeKeyOf(current: Trip, next: Trip, p: Connection): EdgeKey {
    EdgeKey(current.id, current.start, current.end, current.destination,
            next.id, next.start, next.end, next.origin,
            current.DeadheadTo(next.origin), p)
  }

  datatype TripKey =
    | Light(id: int, start: int, end: int, deadhead: Option<int>)
    | Full(id: int, start: int, end: int, origin: int, destination: int, line: int, deadhead: Option<int>)

  datatype BlockKey = BlockKey(trips: seq<TripKey>, params: Params)

  function TripKeyAt(c: Chain, i: nat, strict: bool): TripKey
    requires i < |c|
  {
    var t := c[i];
    var deadhead := if i < |c| - 1 then Some(t.DeadheadTo(c[i + 1].origin)) else None;
    if strict then Full(t.id, t.start, t.end, t.origin, t.destination, t.line, deadhead)
    else Light(t.id, t.start, t.end, deadhead)
  }

  function BlockKeyOf(c: Chain, p: Params, strict: bool): (k: BlockKey)
    ensures |k.trips| == |c| && k.params == p && forall i :: 0 <= i < |c| ==> k.trips[i] == TripKeyAt(c, i, strict)
  {
    BlockKey(seq(|c|, i requires 0 <= i < |c| => TripKeyAt(c, i, strict)), p)
  }

  // ---- what the keys leave out ----

  /** The fields of a trip that a verdict may read but a key may omit. */
  datatype Hidden = Hidden(line: int, origin: int, destination: int, group: Option<int>, original: Option<int>,
    segment: int)

  function HiddenOf(t: Trip): Hidden {
    Hidden(t.line, t.origin, t.destination, t.group, t.original, t.segment)
  }

  /** Hidden fields met so far, by trip id. */
  type Known = map<int, Hidden>

  ghost predicate Agrees(t: Trip, known: Known) {
    t.id in known ==> known[t.id] == HiddenOf(t)
  }

  ghost predicate Recorded(t: Trip, known: Known) {
    t.id in known && known[t.id] == HiddenOf(t)
  }

  /** The hidden fields are functions of the id: within the chain, and against everything met before. */
  ghost predicate Coherent(c: Chain, known: Known) {
    && (forall i :: 0 <= i < |c| ==> Agrees(c[i], known))
    && (forall i, j :: 0 <= i < j < |c| && c[i].id == c[j].id ==> HiddenOf(c[i]) == HiddenOf(c[j]))
  }

  ghost predicate AllRecorded(c: Chain, known: Known) {
    forall i :: 0 <= i < |c| ==> Recorded(c[i], known)
  }

  ghost function Learn(known: Known, c: Chain, n: nat): Known
    requires n <= |c|
  {
    if n == 0 then known else Learn(known, c, n - 1)[c[n - 1].id := HiddenOf(c[n - 1])]
  }

  ghost predicate Extends(known: Known, more: Known) {
    forall id :: id in known ==> id in more && more[id] == known[id]
  }

  lemma {:induction false} LearnFacts(known: Known, c: Chain, n: nat)
    requires n <= |c| && Coherent(c, known)
    ensures Extends(known, Learn(known, c, n))
    ensures forall i :: 0 <= i < n ==> Recorded(c[i], Learn(known, c, n))
    ensures forall i :: n <= i < |c| ==> Agrees(c[i], Learn(known, c, n))
  {
    if n > 0 {
      LearnFacts(known, c, n - 1);
    }
  }

  // ---- keys determine verdicts ----

  /** The key alone decides: away from gap 0, or where the strict terminal check already fails. */
  predicate Decides(k: EdgeKey) {
    k.currentEnd != k.nextStart || (k.conn.strictZeroGap && k.currentDestination != k.nextOrigin)
  }

  /** Where the key does not decide, the hidden fields decide with it. */
  lemma EdgeKeyDecides(a: Trip, b: Trip, c: Trip, d: Trip, p: Connection)
    requires EdgeKeyOf(a, b, p) == EdgeKeyOf(c, d, p)
    requires Decides(EdgeKeyOf(a, b, p)) || (HiddenOf(a) == HiddenOf(c) && HiddenOf(b) == HiddenOf(d))
    ensures EdgeFeasible(a, b, p) == EdgeFeasible(c, d, p)
  {
  }

  /** All connections with this key have one verdict exactly when the key decides. */
  lemma EdgeKeyExact(a: Trip, b: Trip, p: Connection)
    ensures (forall c, d :: EdgeKeyOf(c, d, p) == EdgeKeyOf(a, b, p) ==> EdgeFeasible(c, d, p) == EdgeFeasible(a, b, p))
      <==> GapBetween(a, b) != 0 || (p.strictZeroGap && a.destination != b.origin)
  {
    if Decides(EdgeKeyOf(a, b, p)) {
      forall c, d | EdgeKeyOf(c, d, p) == EdgeKeyOf(a, b, p) ensures EdgeFeasible(c, d, p) == EdgeFeasible(a, b, p) {
        EdgeKeyDecides(c, d, a, b, p);
      }
    } else {
      var grouped := (a.(group := Some(7)), b.(group := Some(7)));
      var apart := (a.(group := None, original := None), b.(group := None, original := None));
      assert EdgeKeyOf(grouped.0, grouped.1, p) == EdgeKeyOf(a, b, p) == EdgeKeyOf(apart.0, apart.1, p);
      assert EdgeFeasible(grouped.0, grouped.1, p) && !EdgeFeasible(apart.0, apart.1, p);
    }
  }

  lemma BlockKeyDecides(c: Chain, d: Chain, p: Params, strict: bool, loose: bool)
    requires BlockKeyOf(c, p, strict) == BlockKeyOf(d, p, loose)
    requires |c| == |d| && forall i :: 0 <= i < |c| ==> HiddenOf(c[i]) == HiddenOf(d[i])
    ensures BlockFeasible(c, p) == BlockFeasible(d, p)
  {
    forall i | 0 <= i < |c|
      ensures c[i].start == d[i].start && c[i].end == d[i].end
      ensures i < |c| - 1 ==> c[i].DeadheadTo(c[i + 1].origin) == d[i].DeadheadTo(d[i + 1].origin)
    {
      assert TripKeyAt(c, i, strict) == BlockKeyOf(c, p, strict).trips[i] == TripKeyAt(d, i, loose);
    }
    forall i | 0 <= i < |c| - 1 ensures EdgeFeasible(c[i], c[i + 1], p.conn) == EdgeFeasible(d[i], d[i + 1], p.conn) {
      assert HiddenOf(c[i]) == HiddenOf(d[i]) && HiddenOf(c[i + 1]) == HiddenOf(d[i + 1]);
    }
    SameLines(c, d);
  }

  lemma SameLines(c: Chain, d: Chain)
    requires |c| == |d| && forall i :: 0 <= i < |c| ==> HiddenOf(c[i]) == HiddenOf(d[i])
    ensures Lines(c) == Lines(d)
  {
    forall line ensures line in Lines(c) <==> line in Lines(d) {
      if line in Lines(c) {
        var i :| 0 <= i < |c| && c[i].line == line;
        assert HiddenOf(c[i]) == HiddenOf(d[i]) && d[i] in d;
      }
      if line in Lines(d) {
        var i :| 0 <= i < |d| && d[i].line == line;
        assert HiddenOf(c[i]) == HiddenOf(d[i]) && c[i] in c;
      }
    }
  }

  // ---- what a block key decides alone ----

  /** The check of a connection whose gap is not 0 reads times and the deadhead only. */
  predicate ApartFits(gap: int, deadhead: int, p: Connection) {
    var required := Max(p.minLayover, deadhead);
    && gap > 0 && (p.enforceMinInterval ==> gap >= p.minBreak)
    && (if p.strictOperational || p.strictHard then gap >= required else gap + p.tolerance >= required)
  }

  predicate KeyFits(a: TripKey, b: TripKey, p: Connection) {
    ApartFits(b.start - a.end, if a.deadhead.Some? then a.deadhead.value else 0, p)
  }

  /** A connection that fits by its times. */
  predicate EdgeIn(k: BlockKey, i: nat)
    requires i + 1 < |k.trips|
  {
    k.trips[i].end != k.trips[i + 1].start && KeyFits(k.trips[i], k.trips[i + 1], k.params.conn)
  }

  /** A connection that fails by its times, or at gap 0 by terminals the key holds. */
  predicate EdgeOut(k: BlockKey, i: nat)
    requires i + 1 < |k.trips|
  {
    var a, b := k.trips[i], k.trips[i + 1];
    if a.end != b.start then !KeyFits(a, b, k.params.conn)
    else k.params.conn.strictZeroGap && a.Full? && b.Full? && a.destination != b.origin
  }

  predicate ShiftOut(k: BlockKey)
    requires k.trips != []
  {
    k.params.maxShift > 0 && k.trips[|k.trips| - 1].end - k.trips[0].start > k.params.maxShift
  }

  predicate LineKnown(k: BlockKey, i: nat)
    requires i < |k.trips|
  {
    k.trips[0].Full? && k.trips[i].Full?
  }

  predicate SameLine(k: BlockKey, i: nat)
    requires i < |k.trips| && LineKnown(k, i)
  {
    k.trips[i].line == k.trips[0].line
  }

  /** Every block with this key is infeasible. */
  predicate Rejects(k: BlockKey) {
    |k.trips| > 1 &&
    (|| ShiftOut(k)
     || (!k.params.allowMultiLine && exists i: nat :: i < |k.trips| && LineKnown(k, i) && !SameLine(k, i))
     || (exists i: nat :: i < |k.trips| - 1 && EdgeOut(k, i)))
  }

  /** Every block with this key is feasible. */
  predicate Accepts(k: BlockKey) {
    |k.trips| > 1 ==>
    (&& !ShiftOut(k)
     && (k.params.allowMultiLine || forall i: nat :: i < |k.trips| ==> LineKnown(k, i) && SameLine(k, i))
     && (forall i: nat :: i < |k.trips| - 1 ==> EdgeIn(k, i)))
  }

  /** The key alone decides. */
  predicate BlockDecides(k: BlockKey) {
    Rejects(k) || Accepts(k)
  }

  lemma ApartIs(a: Trip, b: Trip, p: Connection)
    requires GapBetween(a, b) != 0
    ensures EdgeFeasible(a, b, p) == ApartFits(GapBetween(a, b), a.DeadheadTo(b.origin), p)
  {
  }

  lemma EdgeAlone(c: Chain, p: Params, strict: bool, i: nat)
    requires i + 1 < |c|
    ensures EdgeIn(BlockKeyOf(c, p, strict), i) ==>
      EdgeFeasible(c[i], c[i + 1], p.conn) && Decides(EdgeKeyOf(c[i], c[i + 1], p.conn))
    ensures EdgeOut(BlockKeyOf(c, p, strict), i) ==>
      !EdgeFeasible(c[i], c[i + 1], p.conn) && Decides(EdgeKeyOf(c[i], c[i + 1], p.conn))
  {
    var k := BlockKeyOf(c, p, strict);
    assert k.trips[i] == TripKeyAt(c, i, strict) && k.trips[i + 1] == TripKeyAt(c, i + 1, strict);
    if GapBetween(c[i], c[i + 1]) != 0 { ApartIs(c[i], c[i + 1], p.conn); }
  }

  lemma LinesAlone(c: Chain, p: Params, strict: bool)
    requires c != []
    ensures var k := BlockKeyOf(c, p, strict);
      && (forall i: nat :: i < |c| ==> (LineKnown(k, i) <==> strict))
      && (strict ==> (|Lines(c)| <= 1 <==> forall i: nat :: i < |c| ==> SameLine(k, i)))
  {
    var k := BlockKeyOf(c, p, strict);
    forall i: nat | i < |c| ensures k.trips[i] == TripKeyAt(c, i, strict) {}
    OneLine(c);
    if strict && forall i: nat :: i < |c| ==> SameLine(k, i) {
      forall t | t in c ensures t.line == c[0].line {
        var i: nat :| i < |c| && c[i] == t;
        assert SameLine(k, i);
      }
    }
  }

  /** Whatever the hidden fields: a rejecting key means infeasible, an accepting one feasible. */
  lemma BlockKeyAlone(c: Chain, p: Params, strict: bool)
    ensures Rejects(BlockKeyOf(c, p, strict)) ==> !BlockFeasible(c, p)
    ensures Accepts(BlockKeyOf(c, p, strict)) ==> BlockFeasible(c, p)
  {
    if |c| <= 1 { return; }
    var k := BlockKeyOf(c, p, strict);
    LinesAlone(c, p, strict);
    assert k.trips[0] == TripKeyAt(c, 0, strict) && k.trips[|c| - 1] == TripKeyAt(c, |c| - 1, strict);
    forall i: nat | i < |c| - 1
      ensures EdgeIn(k, i) ==> EdgeFeasible(c[i], c[i + 1], p.conn)
      ensures EdgeOut(k, i) ==> !EdgeFeasible(c[i], c[i + 1], p.conn)
    {
      EdgeAlone(c, p, strict, i);
    }
    hide EdgeIn, EdgeOut, EdgeFeasible, LineKnown, SameLine, Lines;
    assert Accepts(k) && !p.allowMultiLine ==> LineKnown(k, 0);
  }

  /** The same key with hidden fields that let every undecided check pass. */
  function Lenient(c: Chain, strict: bool): (d: Chain)
    ensures |d| == |c| && forall i :: 0 <= i < |d| ==> d[i] == LenientTrip(c, i, strict)
  {
    seq(|c|, i requires 0 <= i < |c| => LenientTrip(c, i, strict))
  }

  function LenientTrip(c: Chain, i: nat, strict: bool): Trip
    requires i < |c|
  {
    var t := c[i].(group := Some(7));
    if strict then t
    else t.(line := 1, origin := 1, destination := 1,
            deadhead := if i < |c| - 1 then map[1 := c[i].DeadheadTo(c[i + 1].origin)] else map[])
  }

  /** The same key with hidden fields that let every undecided check fail. */
  function Harsh(c: Chain, strict: bool): (d: Chain)
    ensures |d| == |c| && forall i :: 0 <= i < |d| ==> d[i] == HarshTrip(c[i], i, strict)
  {
    seq(|c|, i requires 0 <= i < |c| => HarshTrip(c[i], i, strict))
  }

  function HarshTrip(t: Trip, i: nat, strict: bool): Trip {
    var u := t.(group := None, original := None);
    if strict then u else u.(line := i)
  }

  lemma SameKeys(c: Chain, p: Params, strict: bool)
    ensures BlockKeyOf(Lenient(c, strict), p, strict) == BlockKeyOf(c, p, strict)
    ensures BlockKeyOf(Harsh(c, strict), p, strict) == BlockKeyOf(c, p, strict)
  {
    var d, e := Lenient(c, strict), Harsh(c, strict);
    forall i | 0 <= i < |c| ensures TripKeyAt(d, i, strict) == TripKeyAt(c, i, strict) == TripKeyAt(e, i, strict) {}
  }

  lemma LenientPasses(c: Chain, p: Params, strict: bool)
    requires !Rejects(BlockKeyOf(c, p, strict))
    ensures BlockFeasible(Lenient(c, strict), p)
  {
    var k, d := BlockKeyOf(c, p, strict), Lenient(c, strict);
    if |c| > 1 {
      assert forall i :: 0 <= i < |c| ==> k.trips[i] == TripKeyAt(c, i, strict);
      OneLine(d);
      forall i | 0 <= i < |d| && !p.allowMultiLine ensures d[i].line == d[0].line {
        assert k.trips[0] == TripKeyAt(c, 0, strict) && k.trips[i] == TripKeyAt(c, i, strict);
        assert LineKnown(k, i) ==> SameLine(k, i);
      }
      forall i: nat | i < |c| - 1 ensures EdgeFeasible(d[i], d[i + 1], p.conn) {
        assert !EdgeOut(k, i);
        if GapBetween(d[i], d[i + 1]) != 0 { ApartIs(d[i], d[i + 1], p.conn); }
      }
    }
  }

  lemma HarshFails(c: Chain, p: Params, strict: bool)
    requires !BlockDecides(BlockKeyOf(c, p, strict))
    ensures !BlockFeasible(Harsh(c, strict), p)
  {
    var k, d := BlockKeyOf(c, p, strict), Harsh(c, strict);
    assert forall i :: 0 <= i < |c| ==> k.trips[i] == TripKeyAt(c, i, strict);
    if i: nat :| i < |k.trips| - 1 && !EdgeIn(k, i) {
      assert !EdgeOut(k, i);
      assert !EdgeFeasible(d[i], d[i + 1], p.conn);
    } else {
      OneLine(d);
      assert d[1] in d;
    }
  }

  /** All blocks with this key have one verdict exactly when the key decides. */
  lemma BlockKeyExact(c: Chain, p: Params, strict: bool)
    ensures (forall d: Chain, loose: bool ::
        BlockKeyOf(d, p, loose) == BlockKeyOf(c, p, strict) ==> BlockFeasible(d, p) == BlockFeasible(c, p))
      <==> BlockDecides(BlockKeyOf(c, p, strict))
  {
    hide BlockFeasible, Rejects, Accepts;
    var k := BlockKeyOf(c, p, strict);
    BlockKeyAlone(c, p, strict);
    if BlockDecides(k) {
      forall d: Chain, loose: bool | BlockKeyOf(d, p, loose) == k ensures BlockFeasible(d, p) == BlockFeasible(c, p) {
        BlockKeyAlone(d, p, loose);
      }
    } else {
      SameKeys(c, p, strict);
      LenientPasses(c, p, strict);
      HarshFails(c, p, strict);
    }
  }

  /** Equal keys, different verdicts. */
  lemma EdgeKeyAloneIsNotEnough()
    ensures exists a: Trip, b: Trip, c: Trip, d: Trip, p: Connection ::
      EdgeKeyOf(a, b, p) == EdgeKeyOf(c, d, p) && EdgeFeasible(a, b, p) && !EdgeFeasible(c, d, p)
  {
    var regrouped := SECOND.(group := Some(8));
    assert EdgeKeyOf(FIRST, SECOND, CONN) == EdgeKeyOf(FIRST, regrouped, CONN);
    assert EdgeFeasible(FIRST, SECOND, CONN) && !EdgeFeasible(FIRST, regrouped, CONN);
  }

  const CONN: Connection := Connection(8, 30, false, 0, false, false, false)
  const FIRST: Trip := Trip(1, 1, 0, 10, 1, 2, Some(7), None, 0, "", None, map[])
  const SECOND: Trip := Trip(2, 1, 10, 20, 2, 1, Some(7), None, 0, "", None, map[])
}
