// A bounded cache in least-recently-used order, as the optimizer keeps in an ordered dictionary.
module LruCache {
  import opened Wrappers

  ghost predicate NoDuplicates<K>(s: seq<K>) {
    forall i, j :: 0 <= i < j < |s| ==> s[i] != s[j]
  }

  /** s without k, in the same order. */
  function Remove<K(!new,==)>(s: seq<K>, k: K): (r: seq<K>)
    ensures k !in r && forall x :: x in r <==> x in s && x != k
  {
    if s == [] then [] else (if s[0] == k then [] else [s[0]]) + Remove(s[1..], k)
  }

  /** The distinct keys of a use history, least recently used first. Independent of any capacity. */
  ghost function ByLastUse<K(!new)>(history: seq<K>): seq<K> {
    if history == [] then [] else
    var last := history[|history| - 1];
    Remove(ByLastUse(history[..|history| - 1]), last) + [last]
  }

  /** The last n entries of s, or all of s. */
  function Last<K(!new)>(s: seq<K>, n: nat): (r: seq<K>)
    ensures |r| == Min(|s|, n)
  {
    if |s| <= n then s else s[|s| - n..]
  }

  lemma {:induction false} RemoveFacts<K(!new)>(s: seq<K>, k: K)
    requires NoDuplicates(s)
    ensures NoDuplicates(Remove(s, k))
    ensures |Remove(s, k)| == |s| - (if k in s then 1 else 0)
    ensures k !in s ==> Remove(s, k) == s
  {
    if s != [] {
      RemoveFacts(s[1..], k);
      assert s == [s[0]] + s[1..];
      var r := Remove(s[1..], k);
      forall j | 0 <= j < |r| ensures r[j] != s[0] { assert r[j] in r; }
    }
  }

  lemma {:induction false} RemoveConcat<K(!new)>(a: seq<K>, b: seq<K>, k: K)
    ensures Remove(a + b, k) == Remove(a, k) + Remove(b, k)
  {
    if a == [] {
      assert a + b == b;
    } else {
      assert (a + b)[1..] == a[1..] + b;
      RemoveConcat(a[1..], b, k);
    }
  }

  lemma {:induction false} ByLastUseDistinct<K(!new)>(history: seq<K>)
    ensures NoDuplicates(ByLastUse(history))
  {
    if history != [] {
      var front := history[..|history| - 1];
      ByLastUseDistinct(front);
      RemoveFacts(ByLastUse(front), history[|history| - 1]);
    }
  }

  lemma ByLastUseStep<K(!new)>(history: seq<K>, k: K)
    ensures ByLastUse(history + [k]) == Remove(ByLastUse(history), k) + [k]
  {
    assert (history + [k])[..|history|] == history;
  }

  lemma LastOfConcat<K(!new)>(a: seq<K>, b: seq<K>, n: nat)
    requires |b| == n || (a == [] && |b| <= n)
    ensures Last(a + b, n) == b
  {
    assert (a + b)[|a|..] == b;
  }

  /** Using a key that is among the n most recent ones moves it to the back. */
  lemma TouchKeepsRecent<K(!new)>(older: seq<K>, order: seq<K>, n: nat, k: K)
    requires NoDuplicates(older + order) && k in order
    requires |order| == n || (older == [] && |order| <= n)
    ensures Remove(order, k) + [k] == Last(Remove(older + order, k) + [k], n)
  {
    assert NoDuplicates(order) by {
      assert forall i :: 0 <= i < |order| ==> order[i] == (older + order)[|older| + i];
    }
    assert k !in older by {
      var j :| 0 <= j < |order| && order[j] == k;
      forall i | 0 <= i < |older| ensures older[i] != k {
        assert (older + order)[i] != (older + order)[|older| + j];
      }
    }
    assert NoDuplicates(older) by {
      assert forall i :: 0 <= i < |older| ==> older[i] == (older + order)[i];
    }
    RemoveConcat(older, order, k);
    RemoveFacts(older, k);
    RemoveFacts(order, k);
    LastOfConcat(older, Remove(order, k) + [k], n);
    assert older + (Remove(order, k) + [k]) == older + Remove(order, k) + [k];
  }

  /** Inserting a key that is not among the n most recent ones evicts the least recent when full. */
  lemma InsertKeepsRecent<K(!new)>(older: seq<K>, order: seq<K>, n: nat, k: K)
    requires n > 0 && NoDuplicates(older + order) && k !in order
    requires |order| == n || (older == [] && |order| < n)
    ensures (if |order| >= n then order[1..] else order) + [k] == Last(Remove(older + order, k) + [k], n)
  {
    assert NoDuplicates(order) by {
      assert forall i :: 0 <= i < |order| ==> order[i] == (older + order)[|older| + i];
    }
    RemoveConcat(older, order, k);
    RemoveFacts(order, k);
    if |order| == n {
      var kept := Remove(older, k) + [order[0]];
      LastOfConcat(kept, order[1..] + [k], n);
      assert kept + (order[1..] + [k]) == Remove(older, k) + order + [k];
    } else {
      LastOfConcat([], order + [k], n);
      assert [] + (order + [k]) == Remove(older + order, k) + [k];
    }
  }

  /** A hit keeps the order equal to the most recently used keys. */
  lemma HitStep<K(!new)>(history: seq<K>, order: seq<K>, n: nat, k: K)
    requires order == Last(ByLastUse(history), n) && k in order
    ensures Remove(order, k) + [k] == Last(ByLastUse(history + [k]), n)
  {
    var all := ByLastUse(history);
    var older := all[..|all| - |order|];
    assert all == older + order;
    ByLastUseDistinct(history);
    ByLastUseStep(history, k);
    TouchKeepsRecent(older, order, n, k);
  }

  /** So does storing a new key after the eviction of the oldest one. */
  lemma StoreStep<K(!new)>(history: seq<K>, order: seq<K>, n: nat, k: K)
    requires n > 0 && order == Last(ByLastUse(history), n) && k !in order
    ensures (if |order| >= n then order[1..] else order) + [k] == Last(ByLastUse(history + [k]), n)
  {
    var all := ByLastUse(history);
    var older := all[..|all| - |order|];
    assert all == older + order;
    ByLastUseDistinct(history);
    ByLastUseStep(history, k);
    InsertKeepsRecent(older, order, n, k);
  }

  lemma LastDistinct<K(!new)>(history: seq<K>, n: nat)
    ensures NoDuplicates(Last(ByLastUse(history), n))
  {
    ByLastUseDistinct(history);
  }

  lemma DropOldest<K(!new)>(order: seq<K>, entries: map<K, bool>)
    requires order != [] && NoDuplicates(order) && forall k :: k in entries <==> k in order
    ensures forall k :: k in entries - {order[0]} <==> k in order[1..]
  {
    assert order == [order[0]] + order[1..];
    forall j | 0 <= j < |order| - 1 ensures order[1..][j] != order[0] {
      assert order[1..][j] == order[j + 1];
    }
  }

  class Lru<K(!new,==)> {
    const capacity: nat
    var order: seq<K>
    var entries: map<K, bool>
    ghost var history: seq<K>

    /** The cache holds exactly the `capacity` most recently used keys, least recent first. */
    ghost predicate Valid()
      reads this
    {
      && capacity > 0
      && NoDuplicates(order)
      && (forall k :: k in entries <==> k in order)
      && order == Last(ByLastUse(history), capacity)
    }

    constructor (capacity: nat)
      requires capacity > 0
      ensures Valid() && entries == map[] && history == [] && this.capacity == capacity
    {
      this.capacity := capacity;
      order, entries, history := [], map[], [];
    }

    method Clear()
      requires Valid()
      modifies this
      ensures Valid() && entries == map[] && history == []
    {
      order, entries, history := [], map[], [];
    }

    /** A hit moves the key to the back of the order and returns the stored verdict. */
    method Lookup(k: K) returns (hit: Option<bool>)
      requires Valid()
      modifies this
      ensures Valid() && entries == old(entries)
      ensures hit == if k in entries then Some(entries[k]) else None
      ensures history == if k in entries then old(history) + [k] else old(history)
    {
      if k in entries {
        HitStep(history, order, capacity, k);
        LastDistinct(history + [k], capacity);
        order := Remove(order, k) + [k];
        history := history + [k];
        hit := Some(entries[k]);
      } else {
        hit := None;
      }
    }

    /** Stores a missing key; a full cache first drops the least recently used one. */
    method Store(k: K, v: bool)
      requires Valid() && k !in entries
      modifies this
      ensures Valid() && history == old(history) + [k]
      ensures k in entries && entries[k] == v
      ensures forall x :: x in entries && x != k ==> x in old(entries) && entries[x] == old(entries)[x]
      ensures |old(order)| < capacity ==> forall x :: x in old(entries) ==> x in entries
      ensures |old(order)| == capacity ==> forall x :: x in old(entries) && x != old(order)[0] ==> x in entries
    {
      StoreStep(history, order, capacity, k);
      LastDistinct(history + [k], capacity);
      if |order| >= capacity {
        DropOldest(order, entries);
        entries := entries - {order[0]};
        order := order[1..];
      }
      assert forall x :: x in order + [k] <==> x in order || x == k;
      entries := entries[k := v];
      order := order + [k];
      history := history + [k];
    }

    /** The number of entries never exceeds the capacity. */
    lemma Bounded()
      requires Valid()
      ensures |entries| <= capacity
    {
      assert entries.Keys == set k | k in order;
      SizeOfOrder(order);
    }
  }

  lemma {:induction false} SizeOfOrder<K(!new)>(s: seq<K>)
    ensures |set k | k in s| <= |s|
  {
    if s != [] {
      SizeOfOrder(s[1..]);
      assert (set k | k in s) == {s[0]} + set k | k in s[1..];
    }
  }
}
