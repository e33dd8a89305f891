// The two nested verdict caches in front of the feasibility kernel.
module FeasibilityCache {
  import opened Wrappers
  import opened Domain
  import opened Kernel
  import opened LruCache
  import opened CacheKeys

  const EDGE_CAPACITY: nat := 20000
  const BLOCK_CAPACITY: nat := 10000

  // ---- soundness of the stored verdicts ----

  type Question = (Trip, Trip, Connection)
  type Request = (Chain, Params, bool)

  /** The connections and blocks asked for since the last clear. */
  datatype Past = Past(edges: set<Question>, blocks: set<Request>)

  const NOTHING: Past := Past({}, {})

  ghost predicate Grows(past: Past, more: Past) {
    past.edges <= more.edges && past.blocks <= more.blocks
  }

  /** The verdict is right for some connection asked for under this key. */
  ghost predicate Backed(past: Past, k: EdgeKey, verdict: bool) {
    exists q :: q in past.edges && EdgeKeyOf(q.0, q.1, q.2) == k && EdgeFeasible(q.0, q.1, q.2) == verdict
  }

  /** What the check of a block comes to when each connection may be answered for another one with its key. */
  ghost predicate Computed(past: Past, c: Chain, p: Params, verdict: bool) {
    c != [] &&
    if verdict then
      && WithinShift(c, p) && (p.allowMultiLine || |Lines(c)| <= 1)
      && forall i :: 0 <= i < |c| - 1 ==> Backed(past, EdgeKeyOf(c[i], c[i + 1], p.conn), true)
    else
      || !WithinShift(c, p) || !(p.allowMultiLine || |Lines(c)| <= 1)
      || exists i :: 0 <= i < |c| - 1 && Backed(past, EdgeKeyOf(c[i], c[i + 1], p.conn), false)
  }

  ghost predicate BlockBacked(past: Past, k: BlockKey, verdict: bool) {
    exists b :: b in past.blocks && |b.0| > 1 && BlockKeyOf(b.0, b.1, b.2) == k && Computed(past, b.0, b.1, verdict)
  }

  /** Every stored verdict is backed by something asked for under its key. */
  ghost predicate AllBacked(edges: map<EdgeKey, bool>, blocks: map<BlockKey, bool>, past: Past) {
    && (forall k :: k in edges ==> Backed(past, k, edges[k]))
    && (forall k :: k in blocks ==> BlockBacked(past, k, blocks[k]))
  }

  lemma StayBacked(past: Past, more: Past)
    requires Grows(past, more)
    ensures forall k, v :: Backed(past, k, v) ==> Backed(more, k, v)
    ensures forall k, v :: BlockBacked(past, k, v) ==> BlockBacked(more, k, v)
  {
    forall k, v | Backed(past, k, v) ensures Backed(more, k, v) {
      var q :| q in past.edges && EdgeKeyOf(q.0, q.1, q.2) == k && EdgeFeasible(q.0, q.1, q.2) == v;
      assert q in more.edges;
    }
    hide Backed, WithinShift, Lines;
    forall k, v | BlockBacked(past, k, v) ensures BlockBacked(more, k, v) {
      var b :| b in past.blocks && |b.0| > 1 && BlockKeyOf(b.0, b.1, b.2) == k && Computed(past, b.0, b.1, v);
      assert b in more.blocks;
    }
  }

  /** A key that decides leaves its backed verdict no choice. */
  lemma BackedDecides(past: Past, a: Trip, b: Trip, p: Connection, verdict: bool)
    requires Backed(past, EdgeKeyOf(a, b, p), verdict) && Decides(EdgeKeyOf(a, b, p))
    ensures verdict == EdgeFeasible(a, b, p)
  {
    var q :| q in past.edges && EdgeKeyOf(q.0, q.1, q.2) == EdgeKeyOf(a, b, p) &&
      EdgeFeasible(q.0, q.1, q.2) == verdict;
    EdgeKeyDecides(q.0, q.1, a, b, p);
  }

  /** A connection settled by a block key can only have been answered one way. */
  lemma EdgeSettled(past: Past, c: Chain, p: Params, strict: bool, i: nat)
    requires i + 1 < |c|
    ensures EdgeOut(BlockKeyOf(c, p, strict), i) ==> !Backed(past, EdgeKeyOf(c[i], c[i + 1], p.conn), true)
    ensures EdgeIn(BlockKeyOf(c, p, strict), i) ==> !Backed(past, EdgeKeyOf(c[i], c[i + 1], p.conn), false)
  {
    EdgeAlone(c, p, strict, i);
    hide EdgeOut, EdgeIn, EdgeFeasible, Backed;
    if Decides(EdgeKeyOf(c[i], c[i + 1], p.conn)) {
      if Backed(past, EdgeKeyOf(c[i], c[i + 1], p.conn), true) { BackedDecides(past, c[i], c[i + 1], p.conn, true); }
      if Backed(past, EdgeKeyOf(c[i], c[i + 1], p.conn), false) { BackedDecides(past, c[i], c[i + 1], p.conn, false); }
    }
  }

  lemma ComputedDecides(past: Past, c: Chain, p: Params, strict: bool, verdict: bool)
    requires |c| > 1 && Computed(past, c, p, verdict) && BlockDecides(BlockKeyOf(c, p, strict))
    ensures verdict == BlockFeasible(c, p)
  {
    hide Backed, EdgeOut, EdgeIn, LineKnown, SameLine, Lines, BlockFeasible, EdgeFeasible;
    var k := BlockKeyOf(c, p, strict);
    BlockKeyAlone(c, p, strict);
    LinesAlone(c, p, strict);
    assert k.trips[0] == TripKeyAt(c, 0, strict) && k.trips[|c| - 1] == TripKeyAt(c, |c| - 1, strict);
    assert ShiftOut(k) <==> !WithinShift(c, p);
    hide ShiftOut, WithinShift;
    if verdict {
      assert !Rejects(k) by {
        if i: nat :| i < |k.trips| - 1 && EdgeOut(k, i) { EdgeSettled(past, c, p, strict, i); }
      }
    } else if Accepts(k) {
      assert !p.allowMultiLine ==> LineKnown(k, 0);
      var i :| 0 <= i < |c| - 1 && Backed(past, EdgeKeyOf(c[i], c[i + 1], p.conn), false);
      EdgeSettled(past, c, p, strict, i);
      assert false;
    }
  }

  lemma BlockBackedDecides(past: Past, c: Chain, p: Params, strict: bool, verdict: bool)
    requires BlockBacked(past, BlockKeyOf(c, p, strict), verdict) && BlockDecides(BlockKeyOf(c, p, strict))
    ensures verdict == BlockFeasible(c, p)
  {
    hide Computed, BlockFeasible, Accepts, Rejects;
    var b :| b in past.blocks && |b.0| > 1 && BlockKeyOf(b.0, b.1, b.2) == BlockKeyOf(c, p, strict) &&
      Computed(past, b.0, b.1, verdict);
    ComputedDecides(past, b.0, b.1, b.2, verdict);
    BlockKeyAlone(c, p, strict);
    BlockKeyAlone(b.0, b.1, b.2);
  }

  /** All verdicts are right for trips with the known hidden fields. */
  ghost predicate EdgesSound(entries: map<EdgeKey, bool>, known: Known) {
    && (forall k :: k in entries && !Decides(k) ==> k.currentId in known && k.nextId in known)
    && (forall a: Trip, b: Trip, p: Connection ::
          EdgeKeyOf(a, b, p) in entries && (Decides(EdgeKeyOf(a, b, p)) || (Recorded(a, known) && Recorded(b, known)))
          ==> entries[EdgeKeyOf(a, b, p)] == EdgeFeasible(a, b, p))
  }

  ghost predicate BlocksSound(entries: map<BlockKey, bool>, known: Known) {
    && (forall k, i :: k in entries && 0 <= i < |k.trips| ==> k.trips[i].id in known)
    && (forall c: Chain, p: Params, strict: bool ::
          BlockKeyOf(c, p, strict) in entries && AllRecorded(c, known)
          ==> entries[BlockKeyOf(c, p, strict)] == BlockFeasible(c, p))
  }

  lemma EdgesStaySound(entries: map<EdgeKey, bool>, known: Known, more: Known)
    requires EdgesSound(entries, known) && Extends(known, more)
    ensures EdgesSound(entries, more)
  {
    forall a: Trip, b: Trip, p: Connection |
      EdgeKeyOf(a, b, p) in entries && (Decides(EdgeKeyOf(a, b, p)) || (Recorded(a, more) && Recorded(b, more)))
      ensures entries[EdgeKeyOf(a, b, p)] == EdgeFeasible(a, b, p)
    {
      var k := EdgeKeyOf(a, b, p);
      assert !Decides(k) ==> k.currentId in known && k.nextId in known;
    }
  }

  lemma BlocksStaySound(entries: map<BlockKey, bool>, known: Known, more: Known)
    requires BlocksSound(entries, known) && Extends(known, more)
    ensures BlocksSound(entries, more)
  {
    forall c: Chain, p: Params, strict: bool | BlockKeyOf(c, p, strict) in entries && AllRecorded(c, more)
      ensures entries[BlockKeyOf(c, p, strict)] == BlockFeasible(c, p)
    {
      var k := BlockKeyOf(c, p, strict);
      forall i | 0 <= i < |c| ensures Recorded(c[i], known) {
        assert k.trips[i].id in known && k.trips[i] == TripKeyAt(c, i, strict);
        assert Recorded(c[i], more);
      }
    }
  }

  /** The entries after storing one verdict; an eviction may have taken another. */
  ghost predicate StoredOne<K(!new)>(before: map<K, bool>, after: map<K, bool>, k: K, verdict: bool) {
    && k in after && after[k] == verdict
    && forall x :: x in after && x != k ==> x in before && after[x] == before[x]
  }

  lemma EdgeStoredBacked(before: map<EdgeKey, bool>, after: map<EdgeKey, bool>, blocks: map<BlockKey, bool>, past: Past,
                         a: Trip, b: Trip, p: Connection)
    requires AllBacked(before, blocks, past) && (a, b, p) in past.edges
    requires StoredOne(before, after, EdgeKeyOf(a, b, p), EdgeFeasible(a, b, p))
    ensures AllBacked(after, blocks, past)
  {
    hide BlockBacked;
    assert Backed(past, EdgeKeyOf(a, b, p), EdgeFeasible(a, b, p)) by { assert (a, b, p) in past.edges; }
  }

  lemma BlockStoredBacked(before: map<BlockKey, bool>, after: map<BlockKey, bool>, edges: map<EdgeKey, bool>,
                          past: Past, c: Chain, p: Params, strict: bool, verdict: bool)
    requires AllBacked(edges, before, past) && (c, p, strict) in past.blocks && |c| > 1 && Computed(past, c, p, verdict)
    requires StoredOne(before, after, BlockKeyOf(c, p, strict), verdict)
    ensures AllBacked(edges, after, past)
  {
    hide Backed, Computed;
    assert BlockBacked(past, BlockKeyOf(c, p, strict), verdict) by { assert (c, p, strict) in past.blocks; }
  }

  /** What the caches say of a connection once its verdict is stored. */
  lemma EdgeAnswered(edges: map<EdgeKey, bool>, blocks: map<BlockKey, bool>, past: Past, memory: Memory,
                     a: Trip, b: Trip, p: Connection)
    requires AllBacked(edges, blocks, past) && EdgeKeyOf(a, b, p) in edges
    requires memory.Trusted? ==> EdgesSound(edges, memory.known) && AllRecorded(EdgeReads(a, b, p), memory.known)
    ensures Backed(past, EdgeKeyOf(a, b, p), edges[EdgeKeyOf(a, b, p)])
    ensures memory.Trusted? || Decides(EdgeKeyOf(a, b, p)) ==> edges[EdgeKeyOf(a, b, p)] == EdgeFeasible(a, b, p)
  {
    if Decides(EdgeKeyOf(a, b, p)) {
      BackedDecides(past, a, b, p, edges[EdgeKeyOf(a, b, p)]);
    } else if memory.Trusted? {
      ReadsRecorded(a, b, p, memory.known);
    }
  }

  lemma ReadsRecorded(a: Trip, b: Trip, p: Connection, known: Known)
    requires AllRecorded(EdgeReads(a, b, p), known)
    ensures Decides(EdgeKeyOf(a, b, p)) || (Recorded(a, known) && Recorded(b, known))
  {
    if !Decides(EdgeKeyOf(a, b, p)) {
      assert EdgeReads(a, b, p)[0] == a && EdgeReads(a, b, p)[1] == b;
    }
  }

  lemma EdgeStored(before: map<EdgeKey, bool>, after: map<EdgeKey, bool>, known: Known, a: Trip, b: Trip, p: Connection)
    requires EdgesSound(before, known) && AllRecorded(EdgeReads(a, b, p), known)
    requires StoredOne(before, after, EdgeKeyOf(a, b, p), EdgeFeasible(a, b, p))
    ensures EdgesSound(after, known)
  {
    ReadsRecorded(a, b, p, known);
    forall c: Trip, d: Trip, q: Connection |
      EdgeKeyOf(c, d, q) in after && (Decides(EdgeKeyOf(c, d, q)) || (Recorded(c, known) && Recorded(d, known)))
      ensures after[EdgeKeyOf(c, d, q)] == EdgeFeasible(c, d, q)
    {
      if EdgeKeyOf(c, d, q) == EdgeKeyOf(a, b, p) {
        EdgeKeyDecides(c, d, a, b, p);
      }
    }
  }

  lemma BlockStored(before: map<BlockKey, bool>, after: map<BlockKey, bool>, known: Known, c: Chain, p: Params,
                    strict: bool)
    requires BlocksSound(before, known) && AllRecorded(c, known)
    requires StoredOne(before, after, BlockKeyOf(c, p, strict), BlockFeasible(c, p))
    ensures BlocksSound(after, known)
  {
    var key := BlockKeyOf(c, p, strict);
    forall k, i | k in after && 0 <= i < |k.trips| ensures k.trips[i].id in known {
      if k == key { assert k.trips[i] == TripKeyAt(c, i, strict) && Recorded(c[i], known); }
    }
    forall d: Chain, q: Params, loose: bool | BlockKeyOf(d, q, loose) in after && AllRecorded(d, known)
      ensures after[BlockKeyOf(d, q, loose)] == BlockFeasible(d, q)
    {
      if BlockKeyOf(d, q, loose) == key {
        SameHidden(c, d, p, strict, loose, known);
        BlockKeyDecides(d, c, p, loose, strict);
      }
    }
  }

  /** What the caches say of a block once its verdict is stored. */
  lemma BlockAnswered(edges: map<EdgeKey, bool>, blocks: map<BlockKey, bool>, past: Past, memory: Memory,
                      c: Chain, p: Params, strict: bool)
    requires AllBacked(edges, blocks, past) && BlockKeyOf(c, p, strict) in blocks
    requires memory.Trusted? ==> BlocksSound(blocks, memory.known) && AllRecorded(c, memory.known)
    ensures BlockBacked(past, BlockKeyOf(c, p, strict), blocks[BlockKeyOf(c, p, strict)])
    ensures memory.Trusted? || BlockDecides(BlockKeyOf(c, p, strict)) ==>
      blocks[BlockKeyOf(c, p, strict)] == BlockFeasible(c, p)
  {
    hide BlockBacked, BlockFeasible, BlockDecides, Backed;
    if BlockDecides(BlockKeyOf(c, p, strict)) {
      BlockBackedDecides(past, c, p, strict, blocks[BlockKeyOf(c, p, strict)]);
    }
  }

  lemma SameHidden(c: Chain, d: Chain, p: Params, strict: bool, loose: bool, known: Known)
    requires AllRecorded(c, known) && AllRecorded(d, known) && BlockKeyOf(c, p, strict) == BlockKeyOf(d, p, loose)
    ensures |c| == |d| && forall i :: 0 <= i < |c| ==> HiddenOf(c[i]) == HiddenOf(d[i])
  {
    assert |c| == |BlockKeyOf(c, p, strict).trips| == |d|;
    forall i | 0 <= i < |c| ensures HiddenOf(c[i]) == HiddenOf(d[i]) {
      assert TripKeyAt(c, i, strict) == BlockKeyOf(c, p, strict).trips[i] == TripKeyAt(d, i, loose);
      assert Recorded(c[i], known) && Recorded(d[i], known);
    }
  }

  // ---- what the caches may be trusted with ----

  /** Trusted while every trip id met since the last clear kept its hidden fields. */
  datatype Memory = Lost | Trusted(known: Known)

  /** Meeting the hidden fields of a chain. */
  ghost function Met(m: Memory, c: Chain): Memory {
    if m.Trusted? && Coherent(c, m.known) then Trusted(Learn(m.known, c, |c|)) else Lost
  }

  /** Trips whose hidden fields a connection check reads. */
  function EdgeReads(current: Trip, next: Trip, p: Connection): Chain {
    if Decides(EdgeKeyOf(current, next, p)) then [] else [current, next]
  }

  function BlockReads(c: Chain): Chain {
    if |c| > 1 then c else []
  }

  lemma MetFacts(m: Memory, c: Chain)
    ensures Met(m, c).Trusted? ==> m.Trusted? && Extends(m.known, Met(m, c).known) && AllRecorded(c, Met(m, c).known)
  {
    if Met(m, c).Trusted? {
      LearnFacts(m.known, c, |c|);
    }
  }

  /** Trips already listed teach nothing. */
  lemma MetRecorded(m: Memory, c: Chain)
    requires m.Trusted? ==> AllRecorded(c, m.known)
    ensures Met(m, c) == m
  {
    if m.Trusted? {
      LearnRecorded(m.known, c, |c|);
      forall i, j | 0 <= i < j < |c| && c[i].id == c[j].id ensures HiddenOf(c[i]) == HiddenOf(c[j]) {
        assert Recorded(c[i], m.known) && Recorded(c[j], m.known);
      }
      assert forall i :: 0 <= i < |c| ==> Recorded(c[i], m.known) ==> Agrees(c[i], m.known);
    }
  }

  lemma {:induction false} LearnRecorded(known: Known, c: Chain, n: nat)
    requires n <= |c| && AllRecorded(c, known)
    ensures Learn(known, c, n) == known
  {
    if n > 0 {
      LearnRecorded(known, c, n - 1);
      assert Recorded(c[n - 1], known);
    }
  }

  // ---- the cached checks ----

  class FeasibilityService {
    const edges: Lru<EdgeKey>
    const blocks: Lru<BlockKey>
    ghost var memory: Memory
    ghost var past: Past

    ghost predicate Valid()
      reads this, edges, blocks
    {
      && edges.Valid() && blocks.Valid()
      && edges.capacity == EDGE_CAPACITY && blocks.capacity == BLOCK_CAPACITY
      && AllBacked(edges.entries, blocks.entries, past)
      && (memory.Trusted? ==> EdgesSound(edges.entries, memory.known) && BlocksSound(blocks.entries, memory.known))
    }

    constructor ()
      ensures Valid() && memory == Trusted(map[]) && past == NOTHING
      ensures edges.entries == map[] && blocks.entries == map[]
      ensures fresh(edges) && fresh(blocks)
    {
      edges := new Lru(EDGE_CAPACITY);
      blocks := new Lru(BLOCK_CAPACITY);
      memory, past := Trusted(map[]), NOTHING;
    }

    /** `clear_feasibility_caches`: afterwards trips may change their hidden fields. */
    method Clear()
      requires Valid()
      modifies this, edges, blocks
      ensures Valid() && memory == Trusted(map[]) && past == NOTHING
      ensures edges.entries == map[] && blocks.entries == map[]
    {
      edges.Clear();
      blocks.Clear();
      memory, past := Trusted(map[]), NOTHING;
    }

    /** A stored verdict is returned as it is; a missing one is computed and stored. */
    method IsConnectionFeasible(current: Trip, next: Trip, p: Connection) returns (ok: bool)
      requires Valid()
      modifies this, edges
      ensures Valid() && memory == Met(old(memory), EdgeReads(current, next, p))
      ensures past == old(past).(edges := old(past).edges + {(current, next, p)})
      ensures Backed(past, EdgeKeyOf(current, next, p), ok)
      ensures memory.Trusted? || Decides(EdgeKeyOf(current, next, p)) ==> ok == EdgeFeasible(current, next, p)
      ensures ok == var k := EdgeKeyOf(current, next, p);
        if k in old(edges.entries) then old(edges.entries)[k] else EdgeFeasible(current, next, p)
      ensures EdgeKeyOf(current, next, p) in edges.entries && edges.entries[EdgeKeyOf(current, next, p)] == ok
    {
      hide EdgesSound, BlocksSound, AllBacked, Backed, Met, Decides, EdgeReads, AllRecorded;
      Absorb(EdgeReads(current, next, p));
      Ask(past.(edges := past.edges + {(current, next, p)}));
      var key := EdgeKeyOf(current, next, p);
      var hit := edges.Lookup(key);
      if hit.Some? {
        ok := hit.value;
      } else {
        ok := EdgeFeasible(current, next, p);
        ghost var before := edges.entries;
        edges.Store(key, ok);
        EdgeStoredBacked(before, edges.entries, blocks.entries, past, current, next, p);
        if memory.Trusted? {
          EdgeStored(before, edges.entries, memory.known, current, next, p);
        }
      }
      EdgeAnswered(edges.entries, blocks.entries, past, memory, current, next, p);
    }

    /** `is_block_feasible`: short chains pass at once, other verdicts go through the block cache. */
    method IsBlockFeasible(c: Chain, raw: RawParams, strict: bool) returns (ok: bool)
      requires Valid()
      modifies this, edges, blocks
      ensures Valid() && memory == Met(old(memory), BlockReads(c))
      ensures Grows(old(past), past) && Grows(past, Asked(old(past), BlockCall(c, raw, strict)))
      ensures memory.Trusted? || BlockDecides(BlockKeyOf(c, Extract(raw), strict)) ==>
        ok == BlockFeasible(c, Extract(raw))
      ensures |c| > 1 ==> BlockBacked(past, BlockKeyOf(c, Extract(raw), strict), ok)
      ensures |c| > 1 && BlockKeyOf(c, Extract(raw), strict) !in old(blocks.entries) ==>
        Computed(past, c, Extract(raw), ok)
      ensures |c| <= 1 ==> ok
      ensures |c| > 1 ==> var k := BlockKeyOf(c, Extract(raw), strict);
        && k in blocks.entries && blocks.entries[k] == ok
        && (k in old(blocks.entries) ==> ok == old(blocks.entries)[k])
    {
      MetRecorded(memory, []);
      if |c| <= 1 {
        return true;
      }
      hide EdgesSound, BlocksSound, Met, AllBacked, Computed, BlockBacked, BlockDecides, BlockFeasible, AllRecorded;
      hide Pairs, BlockKeyOf;
      var p := Extract(raw);
      Absorb(c);
      Ask(past.(blocks := past.blocks + {(c, p, strict)}));
      ok := AskBlock(c, p, strict);
    }

    method AskBlock(c: Chain, p: Params, strict: bool) returns (ok: bool)
      requires Valid() && |c| > 1 && (memory.Trusted? ==> AllRecorded(c, memory.known)) && (c, p, strict) in past.blocks
      modifies this, edges, blocks
      ensures Valid() && memory == old(memory)
      ensures Grows(old(past), past) && past.blocks == old(past).blocks
      ensures past.edges <= old(past).edges + Pairs(c, p.conn)
      ensures memory.Trusted? || BlockDecides(BlockKeyOf(c, p, strict)) ==> ok == BlockFeasible(c, p)
      ensures BlockBacked(past, BlockKeyOf(c, p, strict), ok)
      ensures BlockKeyOf(c, p, strict) in blocks.entries && blocks.entries[BlockKeyOf(c, p, strict)] == ok
      ensures if BlockKeyOf(c, p, strict) !in old(blocks.entries) then Computed(past, c, p, ok)
        else ok == old(blocks.entries)[BlockKeyOf(c, p, strict)]
    {
      hide EdgesSound, BlocksSound, AllBacked, Computed, BlockBacked, BlockDecides, BlockFeasible, AllRecorded;
      hide Pairs, BlockKeyOf;
      var hit := blocks.Lookup(BlockKeyOf(c, p, strict));
      if hit.Some? {
        ok := hit.value;
      } else {
        ok := CheckAndStore(c, p, strict);
      }
      BlockAnswered(edges.entries, blocks.entries, past, memory, c, p, strict);
    }

    /** Any one call of the service. */
    method Answer(call: Call) returns (answer: Option<bool>)
      requires Valid()
      modifies this, edges, blocks
      ensures Valid() && memory == AfterCall(old(memory), call) && Grows(past, Asked(old(past), call))
      ensures Traced(past, call, answer)
      ensures memory.Trusted? || KeyDecides(call) ==> answer == Uncached(call)
    {
      match call {
        case EdgeCall(current, next, conn) =>
          var ok := IsConnectionFeasible(current, next, conn);
          answer := Some(ok);
        case BlockCall(chain, raw, strict) =>
          var ok := IsBlockFeasible(chain, raw, strict);
          answer := Some(ok);
        case ClearCall =>
          Clear();
          answer := None;
      }
    }

    /** Notes what is asked for. */
    ghost method Ask(more: Past)
      requires Valid() && Grows(past, more)
      modifies `past
      ensures Valid() && past == more
    {
      StayBacked(past, more);
      past := more;
    }

    /** Meets the hidden fields of a chain. */
    ghost method Absorb(c: Chain)
      requires Valid()
      modifies `memory
      ensures Valid() && memory == Met(old(memory), c)
      ensures memory.Trusted? ==> AllRecorded(c, memory.known)
    {
      MetFacts(memory, c);
      if Met(memory, c).Trusted? {
        EdgesStaySound(edges.entries, memory.known, Met(memory, c).known);
        BlocksStaySound(blocks.entries, memory.known, Met(memory, c).known);
      }
      memory := Met(memory, c);
    }

    /** A cache miss: the verdict is computed and stored. */
    method CheckAndStore(c: Chain, p: Params, strict: bool) returns (ok: bool)
      requires Valid() && |c| > 1 && (memory.Trusted? ==> AllRecorded(c, memory.known)) && (c, p, strict) in past.blocks
      requires BlockKeyOf(c, p, strict) !in blocks.entries
      modifies this, edges, blocks
      ensures Valid() && memory == old(memory)
      ensures Grows(old(past), past) && past.blocks == old(past).blocks
      ensures past.edges <= old(past).edges + Pairs(c, p.conn)
      ensures Computed(past, c, p, ok)
      ensures BlockKeyOf(c, p, strict) in blocks.entries && blocks.entries[BlockKeyOf(c, p, strict)] == ok
    {
      hide EdgesSound, BlocksSound, AllBacked, Computed, BlockFeasible, AllRecorded, Pairs, BlockKeyOf;
      ok := CheckBlock(c, p);
      ghost var before := blocks.entries;
      blocks.Store(BlockKeyOf(c, p, strict), ok);
      BlockStoredBacked(before, blocks.entries, edges.entries, past, c, p, strict, ok);
      if memory.Trusted? {
        BlockStored(before, blocks.entries, memory.known, c, p, strict);
      }
    }

    /** The checks behind a cache miss: shift, lines, connections. */
    method CheckBlock(c: Chain, p: Params) returns (ok: bool)
      requires Valid() && |c| > 1 && (memory.Trusted? ==> AllRecorded(c, memory.known))
      modifies this, edges
      ensures Valid() && memory == old(memory)
      ensures Grows(old(past), past) && past.blocks == old(past).blocks
      ensures past.edges <= old(past).edges + Pairs(c, p.conn)
      ensures memory.Trusted? ==> ok == BlockFeasible(c, p)
      ensures Computed(past, c, p, ok)
    {
      hide EdgesSound, BlocksSound, AllBacked, Checked, AllRecorded, Backed, EdgeFeasible, Lines, Pairs;
      if p.maxShift > 0 && c[|c| - 1].end - c[0].start > p.maxShift {
        ok := false;
      } else {
        ok := p.allowMultiLine || |Lines(c)| <= 1;
        if ok {
          ghost var done;
          ok, done := CheckEdges(c, p.conn);
          CheckedAll(memory, old(past), past, c, p, done, ok);
        }
      }
    }

    /** The connection loop: stops at the first infeasible edge. */
    method CheckEdges(c: Chain, p: Connection) returns (ok: bool, ghost done: nat)
      requires Valid() && |c| > 1 && (memory.Trusted? ==> AllRecorded(c, memory.known))
      modifies this, edges
      ensures Valid() && memory == old(memory)
      ensures Checked(memory, old(past), past, c, p, done, ok) && (ok ==> done == |c| - 1)
    {
      hide EdgesSound, BlocksSound, AllBacked, Checked, EdgeReads, AllRecorded, EdgeFeasible;
      ok, done := true, 0;
      var i := 0;
      NoneChecked(memory, past, c, p);
      while i < |c| - 1 && ok
        invariant Valid() && memory == old(memory)
        invariant done == i <= |c| - 1 && Checked(memory, old(past), past, c, p, i, ok)
        decreases |c| - i, ok
      {
        EdgeRecorded(memory, c, p, i);
        ghost var before := past;
        ok := IsConnectionFeasible(c[i], c[i + 1], p);
        CheckedOn(memory, old(past), before, past, c, p, i, ok);
        i, done := i + 1, i + 1;
      }
    }
  }

  /** The connection loop after n connections, the last of them answered by `ok`. */
  ghost predicate Checked(m: Memory, start: Past, past: Past, c: Chain, p: Connection, n: nat, ok: bool) {
    && n < |c| && Grows(start, past) && past.blocks == start.blocks && past.edges <= start.edges + PairsTo(c, p, n + 1)
    && (if ok then forall k :: 0 <= k < n ==> Backed(past, EdgeKeyOf(c[k], c[k + 1], p), true)
        else exists k :: 0 <= k < n && Backed(past, EdgeKeyOf(c[k], c[k + 1], p), false))
    && (m.Trusted? ==>
        if ok then forall k :: 0 <= k < n ==> EdgeFeasible(c[k], c[k + 1], p)
        else exists k :: 0 <= k < n && !EdgeFeasible(c[k], c[k + 1], p))
  }

  lemma NoneChecked(m: Memory, past: Past, c: Chain, p: Connection)
    requires c != []
    ensures Checked(m, past, past, c, p, 0, true)
  {
  }

  lemma EdgeRecorded(m: Memory, c: Chain, p: Connection, i: nat)
    requires i + 1 < |c| && (m.Trusted? ==> AllRecorded(c, m.known))
    ensures Met(m, EdgeReads(c[i], c[i + 1], p)) == m
  {
    MetRecorded(m, EdgeReads(c[i], c[i + 1], p));
  }

  lemma CheckedOn(m: Memory, start: Past, before: Past, past: Past, c: Chain, p: Connection, i: nat, ok: bool)
    requires i + 1 < |c| && Checked(m, start, before, c, p, i, true)
    requires past == before.(edges := before.edges + {(c[i], c[i + 1], p)})
    requires Backed(past, EdgeKeyOf(c[i], c[i + 1], p), ok)
    requires m.Trusted? ==> ok == EdgeFeasible(c[i], c[i + 1], p)
    ensures Checked(m, start, past, c, p, i + 1, ok)
  {
    hide Backed, EdgeFeasible;
    StayBacked(before, past);
  }

  /** The connection loop gives the verdict of the block that passed the other checks. */
  lemma CheckedAll(m: Memory, start: Past, past: Past, c: Chain, p: Params, n: nat, ok: bool)
    requires |c| > 1 && Checked(m, start, past, c, p.conn, n, ok) && (ok ==> n == |c| - 1)
    requires WithinShift(c, p) && (p.allowMultiLine || |Lines(c)| <= 1)
    ensures Grows(start, past) && past.blocks == start.blocks && past.edges <= start.edges + Pairs(c, p.conn)
    ensures m.Trusted? ==> ok == BlockFeasible(c, p)
    ensures Computed(past, c, p, ok)
  {
    hide Backed, EdgeFeasible, PairsTo;
    PairsGrow(c, p.conn, n + 1, |c|);
  }

  // ---- whole call sequences ----

  datatype Call =
    | EdgeCall(current: Trip, next: Trip, conn: Connection)
    | BlockCall(chain: Chain, raw: RawParams, strict: bool)
    | ClearCall

  /** The verdict without any cache; clearing answers nothing. */
  function Uncached(call: Call): Option<bool> {
    match call
    case EdgeCall(current, next, conn) => Some(EdgeFeasible(current, next, conn))
    case BlockCall(chain, raw, _) => Some(BlockFeasible(chain, Extract(raw)))
    case ClearCall => None
  }

  /** A call whose key alone decides. */
  predicate KeyDecides(call: Call) {
    match call
    case EdgeCall(current, next, conn) => Decides(EdgeKeyOf(current, next, conn))
    case BlockCall(chain, raw, strict) => BlockDecides(BlockKeyOf(chain, Extract(raw), strict))
    case ClearCall => true
  }

  /** The first n - 1 connections of a chain. */
  function PairsTo(c: Chain, p: Connection, n: nat): set<Question>
    requires n <= |c|
  {
    if n <= 1 then {} else PairsTo(c, p, n - 1) + {(c[n - 2], c[n - 1], p)}
  }

  function Pairs(c: Chain, p: Connection): set<Question> {
    PairsTo(c, p, |c|)
  }

  lemma {:induction false} PairsGrow(c: Chain, p: Connection, m: nat, n: nat)
    requires m <= n <= |c|
    ensures PairsTo(c, p, m) <= PairsTo(c, p, n)
  {
    if m < n { PairsGrow(c, p, m, n - 1); }
  }

  /** What has been asked for after one more call. */
  function Asked(past: Past, call: Call): Past {
    match call
    case EdgeCall(current, next, conn) => past.(edges := past.edges + {(current, next, conn)})
    case BlockCall(chain, raw, strict) =>
      if |chain| <= 1 then past
      else Past(past.edges + Pairs(chain, Extract(raw).conn), past.blocks + {(chain, Extract(raw), strict)})
    case ClearCall => NOTHING
  }

  /** All that was asked for since the last clear. */
  function AskedSince(calls: seq<Call>, n: nat): Past
    requires n <= |calls|
  {
    if n == 0 then NOTHING else Asked(AskedSince(calls, n - 1), calls[n - 1])
  }

  /** The answer belongs to something asked for under the same key. */
  ghost predicate Traced(past: Past, call: Call, answer: Option<bool>) {
    match call
    case EdgeCall(current, next, conn) => answer.Some? && Backed(past, EdgeKeyOf(current, next, conn), answer.value)
    case BlockCall(chain, raw, strict) => answer.Some? &&
      (|chain| > 1 ==> BlockBacked(past, BlockKeyOf(chain, Extract(raw), strict), answer.value))
    case ClearCall => answer.None?
  }

  lemma TracedStays(past: Past, more: Past, call: Call, answer: Option<bool>)
    requires Traced(past, call, answer) && Grows(past, more)
    ensures Traced(more, call, answer)
  {
    StayBacked(past, more);
  }

  lemma AskedGrows(past: Past, more: Past, call: Call)
    requires Grows(past, more)
    ensures Grows(Asked(past, call), Asked(more, call))
  {
  }

  /** Trips whose hidden fields a call reads. */
  function Reads(call: Call): Chain {
    match call
    case EdgeCall(current, next, conn) => EdgeReads(current, next, conn)
    case BlockCall(chain, _, _) => BlockReads(chain)
    case ClearCall => []
  }

  ghost function AfterCall(m: Memory, call: Call): Memory {
    if call.ClearCall? then Trusted(map[]) else Met(m, Reads(call))
  }

  /** Whether the first n calls leave the caches trusted. */
  ghost function MemoryAfter(calls: seq<Call>, n: nat): Memory
    requires n <= |calls|
  {
    if n == 0 then Trusted(map[]) else AfterCall(MemoryAfter(calls, n - 1), calls[n - 1])
  }

  /** All trips read since the last clear. */
  ghost function ReadSince(calls: seq<Call>, n: nat): Chain
    requires n <= |calls|
  {
    if n == 0 || calls[n - 1].ClearCall? then [] else ReadSince(calls, n - 1) + Reads(calls[n - 1])
  }

  /** No id comes with two different sets of hidden fields. */
  ghost predicate OneFace(c: Chain) {
    forall i, j :: 0 <= i < j < |c| && c[i].id == c[j].id ==> HiddenOf(c[i]) == HiddenOf(c[j])
  }

  /** The known ids are exactly those of the chain, with its hidden fields. */
  ghost predicate Remembers(known: Known, c: Chain) {
    AllRecorded(c, known) && forall id :: id in known ==> exists i :: 0 <= i < |c| && c[i].id == id
  }

  lemma {:induction false} LearnIds(known: Known, c: Chain, n: nat)
    requires n <= |c|
    ensures forall id :: id in Learn(known, c, n) <==> id in known || exists i :: 0 <= i < n && c[i].id == id
  {
    if n > 0 { LearnIds(known, c, n - 1); }
  }

  lemma CoherentExact(known: Known, past: Chain, c: Chain)
    requires OneFace(past) && Remembers(known, past)
    ensures Coherent(c, known) <==> OneFace(past + c)
  {
    var all := past + c;
    if OneFace(all) {
      forall i | 0 <= i < |c| ensures Agrees(c[i], known) {
        if c[i].id in known {
          var k :| 0 <= k < |past| && past[k].id == c[i].id;
          assert all[k] == past[k] && all[|past| + i] == c[i] && Recorded(past[k], known);
        }
      }
      forall i, j | 0 <= i < j < |c| && c[i].id == c[j].id ensures HiddenOf(c[i]) == HiddenOf(c[j]) {
        assert all[|past| + i] == c[i] && all[|past| + j] == c[j];
      }
    }
    if Coherent(c, known) {
      forall i, j | 0 <= i < j < |all| && all[i].id == all[j].id ensures HiddenOf(all[i]) == HiddenOf(all[j]) {
        if i < |past| <= j {
          assert Recorded(past[i], known) && Agrees(c[j - |past|], known);
        }
      }
    }
  }

  /** The caches are trusted exactly when no id read since the last clear showed two sets of hidden fields. */
  lemma {:induction false} TrustedExact(calls: seq<Call>, n: nat)
    requires n <= |calls|
    ensures MemoryAfter(calls, n).Trusted? <==> OneFace(ReadSince(calls, n))
    ensures MemoryAfter(calls, n).Trusted? ==> Remembers(MemoryAfter(calls, n).known, ReadSince(calls, n))
  {
    if n > 0 && !calls[n - 1].ClearCall? {
      TrustedExact(calls, n - 1);
      var m, past, c := MemoryAfter(calls, n - 1), ReadSince(calls, n - 1), Reads(calls[n - 1]);
      assert MemoryAfter(calls, n) == Met(m, c);
      hide Met, Coherent, Reads;
      MetStep(m, past, c);
    }
  }

  lemma MetStep(m: Memory, past: Chain, c: Chain)
    requires m.Trusted? <==> OneFace(past)
    requires m.Trusted? ==> Remembers(m.known, past)
    ensures Met(m, c).Trusted? <==> OneFace(past + c)
    ensures Met(m, c).Trusted? ==> Remembers(Met(m, c).known, past + c)
  {
    var all := past + c;
    if m.Trusted? {
      CoherentExact(m.known, past, c);
      if Met(m, c).Trusted? {
        MetFacts(m, c);
        LearnIds(m.known, c, |c|);
        forall i | 0 <= i < |all| ensures Recorded(all[i], Met(m, c).known) {
          if i < |past| { assert Recorded(past[i], m.known); } else { assert all[i] == c[i - |past|]; }
        }
        forall id | id in Met(m, c).known ensures exists i :: 0 <= i < |all| && all[i].id == id {
          if id in m.known {
            var i :| 0 <= i < |past| && past[i].id == id;
            assert all[i] == past[i];
          } else {
            var i :| 0 <= i < |c| && c[i].id == id;
            assert all[|past| + i] == c[i];
          }
        }
      }
    } else {
      var i, j :| 0 <= i < j < |past| && past[i].id == past[j].id && HiddenOf(past[i]) != HiddenOf(past[j]);
      assert all[i] == past[i] && all[j] == past[j];
    }
  }

  ghost predicate RightAnswer(calls: seq<Call>, n: nat, answer: Option<bool>)
    requires n < |calls|
  {
    && (OneFace(ReadSince(calls, n + 1)) || KeyDecides(calls[n]) ==> answer == Uncached(calls[n]))
    && Traced(AskedSince(calls, n + 1), calls[n], answer)
  }

  /**
   * Any call sequence, evictions and clears included. An answer is the uncached one if no id met since the last
   * clear has changed its hidden fields, and always if the key alone decides. Otherwise it still belongs to
   * something asked for since the last clear under the same key.
   */
  method Replay(calls: seq<Call>) returns (answers: seq<Option<bool>>)
    ensures |answers| == |calls|
    ensures forall n :: 0 <= n < |calls| ==> RightAnswer(calls, n, answers[n])
  {
    hide Uncached, KeyDecides, AfterCall, RightAnswer, Traced, Asked, AskedSince, MemoryAfter, Grows;
    hide FeasibilityService.Valid;
    var service := new FeasibilityService();
    answers := [];
    NothingYet(calls);
    for n := 0 to |calls|
      invariant service.Valid() && service.memory == MemoryAfter(calls, n) && |answers| == n
      invariant fresh(service) && fresh(service.edges) && fresh(service.blocks)
      invariant Grows(service.past, AskedSince(calls, n))
      invariant forall k :: 0 <= k < n ==> RightAnswer(calls, k, answers[k])
    {
      ghost var before := service.past;
      var answer := service.Answer(calls[n]);
      AnswerIsRight(calls, n, before, service.past, service.memory, answer);
      answers := answers + [answer];
    }
  }

  lemma NothingYet(calls: seq<Call>)
    ensures MemoryAfter(calls, 0) == Trusted(map[]) && Grows(NOTHING, AskedSince(calls, 0))
  {
  }

  lemma AnswerIsRight(calls: seq<Call>, n: nat, before: Past, past: Past, memory: Memory, answer: Option<bool>)
    requires n < |calls| && memory == AfterCall(MemoryAfter(calls, n), calls[n])
    requires Grows(before, AskedSince(calls, n)) && Grows(past, Asked(before, calls[n]))
    requires Traced(past, calls[n], answer)
    requires memory.Trusted? || KeyDecides(calls[n]) ==> answer == Uncached(calls[n])
    ensures memory == MemoryAfter(calls, n + 1) && Grows(past, AskedSince(calls, n + 1))
    ensures RightAnswer(calls, n, answer)
  {
    hide Traced, Asked, AfterCall, KeyDecides, Uncached, OneFace, ReadSince;
    TrustedExact(calls, n + 1);
    AskedGrows(before, AskedSince(calls, n), calls[n]);
    TracedStays(past, AskedSince(calls, n + 1), calls[n], answer);
  }

  /** For two connections with one key the cache repeats its first verdict, wrongly exactly when the verdicts differ. */
  method AskTwice(a: Trip, b: Trip, c: Trip, d: Trip, p: Connection) returns (first: bool, second: bool)
    requires EdgeKeyOf(a, b, p) == EdgeKeyOf(c, d, p)
    ensures first == second == EdgeFeasible(a, b, p)
    ensures second == EdgeFeasible(c, d, p) <==> EdgeFeasible(a, b, p) == EdgeFeasible(c, d, p)
  {
    var service := new FeasibilityService();
    first := service.IsConnectionFeasible(a, b, p);
    second := service.IsConnectionFeasible(c, d, p);
  }

  /** Two calls the cache cannot both answer rightly: the second trip leaves the group between them. */
  method RegroupedTrip() returns (first: bool, second: bool)
    ensures first && second && !EdgeFeasible(FIRST, SECOND.(group := Some(8)), CONN)
  {
    first, second := AskTwice(FIRST, SECOND, FIRST, SECOND.(group := Some(8)), CONN);
  }
}
