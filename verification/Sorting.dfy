// The stable key sort behind every `list.sort(key=...)` and `sorted(...)` of the optimizer.
module Sorting {

  /** An item together with the key tuple it is sorted by. */
  datatype Keyed<+T> = Keyed(key: seq<int>, item: T)

  /** Lexicographic order on key tuples. */
  predicate LexLe(a: seq<int>, b: seq<int>)
    decreases |a|
  {
    a == [] || (b != [] && (a[0] < b[0] || (a[0] == b[0] && LexLe(a[1..], b[1..]))))
  }

  lemma {:induction false} LexTotal(a: seq<int>, b: seq<int>)
    ensures LexLe(a, b) || LexLe(b, a)
    decreases |a|
  {
    if a != [] && b != [] {
      LexTotal(a[1..], b[1..]);
    }
  }

  lemma {:induction false} LexTransitive(a: seq<int>, b: seq<int>, c: seq<int>)
    requires LexLe(a, b) && LexLe(b, c)
    ensures LexLe(a, c)
    decreases |a|
  {
    if a != [] && a[0] == b[0] == c[0] {
      LexTransitive(a[1..], b[1..], c[1..]);
    }
  }

  lemma LexSingle(a: int, b: int)
    ensures LexLe([a], [b]) <==> a <= b
  {
    assert [a][1..] == [] && [b][1..] == [];
  }

  lemma LexPair(a: int, b: int, c: int, d: int)
    ensures LexLe([a, b], [c, d]) <==> a < c || (a == c && b <= d)
  {
    assert [a, b][1..] == [b] && [c, d][1..] == [d];
    LexSingle(b, d);
  }

  ghost predicate Sorted<T>(s: seq<Keyed<T>>) {
    forall i, j :: 0 <= i < j < |s| ==> LexLe(s[i].key, s[j].key)
  }

  function Items<T>(s: seq<Keyed<T>>): (r: seq<T>)
    ensures |r| == |s| && forall i :: 0 <= i < |s| ==> r[i] == s[i].item
  {
    seq(|s|, i requires 0 <= i < |s| => s[i].item)
  }

  /** Places x before the first entry whose key is not smaller. */
  function Insert<T>(x: Keyed<T>, s: seq<Keyed<T>>): (r: seq<Keyed<T>>)
    ensures |r| == |s| + 1
    ensures multiset(r) == multiset(s) + multiset{x}
  {
    if s == [] || LexLe(x.key, s[0].key) then
      [x] + s
    else
      assert s == [s[0]] + s[1..];
      [s[0]] + Insert(x, s[1..])
  }

  function Sort<T>(s: seq<Keyed<T>>): (r: seq<Keyed<T>>)
    ensures |r| == |s|
    ensures multiset(r) == multiset(s)
  {
    if s == [] then [] else
    assert s == [s[0]] + s[1..];
    Insert(s[0], Sort(s[1..]))
  }

  lemma {:induction false} InsertKeepsSorted<T>(x: Keyed<T>, s: seq<Keyed<T>>)
    requires Sorted(s)
    ensures Sorted(Insert(x, s))
  {
    if s == [] {
    } else if LexLe(x.key, s[0].key) {
      forall j | 0 <= j < |s| ensures LexLe(x.key, s[j].key) {
        if j > 0 { LexTransitive(x.key, s[0].key, s[j].key); }
      }
    } else {
      LexTotal(x.key, s[0].key);
      InsertKeepsSorted(x, s[1..]);
      var r := Insert(x, s[1..]);
      forall j | 0 <= j < |r| ensures LexLe(s[0].key, r[j].key) {
        assert r[j] in multiset(r);
        assert r[j] == x || r[j] in s[1..];
      }
    }
  }

  lemma {:induction false} SortSorts<T>(s: seq<Keyed<T>>)
    ensures Sorted(Sort(s))
  {
    if s != [] {
      SortSorts(s[1..]);
      InsertKeepsSorted(s[0], Sort(s[1..]));
    }
  }

  lemma {:induction false} SortOfSorted<T>(s: seq<Keyed<T>>)
    requires Sorted(s)
    ensures Sort(s) == s
  {
    if s != [] {
      SortOfSorted(s[1..]);
    }
  }

  /** Where inserting into a sorted list leaves each entry. */
  lemma {:induction false} InsertPlaces<T>(x: Keyed<T>, s: seq<Keyed<T>>)
    requires Sorted(s)
    ensures forall j :: 0 <= j < |s| ==> Insert(x, s)[if LexLe(x.key, s[j].key) then j + 1 else j] == s[j]
  {
    if s == [] {
    } else if LexLe(x.key, s[0].key) {
      forall j | 0 <= j < |s| ensures LexLe(x.key, s[j].key) {
        if j > 0 { LexTransitive(x.key, s[0].key, s[j].key); }
      }
    } else {
      InsertPlaces(x, s[1..]);
      var r := Insert(x, s[1..]);
      assert Insert(x, s) == [s[0]] + r;
      forall j | 0 < j < |s| ensures Insert(x, s)[if LexLe(x.key, s[j].key) then j + 1 else j] == s[j] {
        assert s[1..][j - 1] == s[j];
      }
    }
  }

  ghost predicate InFront<T>(x: Keyed<T>, s: seq<Keyed<T>>) {
    forall k :: k in s ==> LexLe(x.key, k.key)
  }

  lemma SortFront<T>(x: Keyed<T>, s: seq<Keyed<T>>)
    requires InFront(x, s)
    ensures Sort([x] + s) == [x] + Sort(s)
  {
    var r := Sort(s);
    if r != [] {
      assert r[0] in multiset(r) && r[0] in s;
    }
    assert ([x] + s)[1..] == s;
  }

  /** Each entry of the front may stand before everything after it. */
  ghost predicate Leads<T>(front: seq<Keyed<T>>, rest: seq<Keyed<T>>) {
    forall i :: 0 <= i < |front| ==> InFront(front[i], front[i + 1..] + rest)
  }

  lemma LeadsOn<T>(front: seq<Keyed<T>>, rest: seq<Keyed<T>>)
    requires Leads(front, rest) && front != []
    ensures Leads(front[1..], rest) && InFront(front[0], front[1..] + rest)
    ensures front + rest == [front[0]] + (front[1..] + rest)
  {
    var later := front[1..];
    forall i | 0 <= i < |later| ensures InFront(later[i], later[i + 1..] + rest) {
      assert later[i] == front[i + 1] && later[i + 1..] == front[i + 2..];
    }
  }

  /** Sorting a list with a front already in place sorts the rest. */
  lemma {:induction false} SortBehind<T>(front: seq<Keyed<T>>, rest: seq<Keyed<T>>)
    requires Leads(front, rest)
    ensures Sort(front + rest) == front + Sort(rest)
  {
    hide Leads, InFront, Sort;
    if front == [] {
      assert front + rest == rest;
    } else {
      LeadsOn(front, rest);
      SortFront(front[0], front[1..] + rest);
      SortBehind(front[1..], rest);
      assert [front[0]] + (front[1..] + Sort(rest)) == front + Sort(rest);
    }
  }

  /** Entries with key k, in order of appearance. */
  function WithKey<T>(s: seq<Keyed<T>>, k: seq<int>): seq<Keyed<T>> {
    if s == [] then [] else (if s[0].key == k then [s[0]] else []) + WithKey(s[1..], k)
  }

  /** The entry on its own, if it has key k. */
  function OneWithKey<T>(x: Keyed<T>, k: seq<int>): seq<Keyed<T>> {
    if x.key == k then [x] else []
  }

  lemma WithKeyFirst<T>(x: Keyed<T>, s: seq<Keyed<T>>, k: seq<int>)
    ensures WithKey([x] + s, k) == OneWithKey(x, k) + WithKey(s, k)
  {
    assert ([x] + s)[1..] == s;
  }

  lemma EmptyMoves<T>(a: seq<T>, b: seq<T>, s: seq<T>)
    requires a == [] || b == []
    ensures a + (b + s) == b + (a + s)
  {
  }

  lemma {:induction false} InsertStable<T>(x: Keyed<T>, s: seq<Keyed<T>>, k: seq<int>)
    ensures WithKey(Insert(x, s), k) == OneWithKey(x, k) + WithKey(s, k)
  {
    if s == [] || LexLe(x.key, s[0].key) {
      WithKeyFirst(x, s, k);
      return;
    }
    var y, rest := s[0], s[1..];
    LexReflexive(x.key);
    assert Insert(x, s) == [y] + Insert(x, rest) && s == [y] + rest && x.key != y.key;
    hide Insert, LexLe, WithKey;
    InsertStable(x, rest, k);
    WithKeyFirst(y, Insert(x, rest), k);
    WithKeyFirst(y, rest, k);
    EmptyMoves(OneWithKey(y, k), OneWithKey(x, k), WithKey(rest, k));
  }

  lemma {:induction false} LexReflexive(a: seq<int>)
    ensures LexLe(a, a)
    decreases |a|
  {
    if a != [] { LexReflexive(a[1..]); }
  }

  /** The sort is stable: entries with equal keys keep their order. */
  lemma {:induction false} SortStable<T>(s: seq<Keyed<T>>, k: seq<int>)
    ensures WithKey(Sort(s), k) == WithKey(s, k)
  {
    if s != [] {
      SortStable(s[1..], k);
      InsertStable(s[0], Sort(s[1..]), k);
    }
  }

  lemma {:induction false} InsertKeepsItems<T>(x: Keyed<T>, s: seq<Keyed<T>>)
    ensures multiset(Items(Insert(x, s))) == multiset(Items(s)) + multiset{x.item}
  {
    if s == [] || LexLe(x.key, s[0].key) {
      assert Items([x] + s) == [x.item] + Items(s);
    } else {
      InsertKeepsItems(x, s[1..]);
      assert Items([s[0]] + Insert(x, s[1..])) == [s[0].item] + Items(Insert(x, s[1..]));
      assert Items(s) == [s[0].item] + Items(s[1..]);
    }
  }

  /** The sorted items are a permutation of the given ones. */
  lemma {:induction false} SortKeepsItems<T>(s: seq<Keyed<T>>)
    ensures multiset(Items(Sort(s))) == multiset(Items(s))
  {
    if s == [] { return; }
    var rest := Sort(s[1..]);
    assert Sort(s) == Insert(s[0], rest);
    assert Items(s) == [s[0].item] + Items(s[1..]);
    SortKeepsItems(s[1..]);
    InsertKeepsItems(s[0], rest);
    hide *;
  }

  /** Sorting by a pair puts the first components in ascending order. */
  lemma SortedPairs<T>(s: seq<Keyed<T>>)
    requires forall k :: k in s ==> |k.key| == 2
    ensures forall k :: k in Sort(s) ==> k in s
    ensures forall i, j :: 0 <= i < j < |s| ==>
      |Sort(s)[i].key| == 2 == |Sort(s)[j].key| && Sort(s)[i].key[0] <= Sort(s)[j].key[0]
  {
    hide Sort, LexLe;
    SortSorts(s);
    var sorted := Sort(s);
    forall k | k in sorted ensures k in s {
      assert k in multiset(s);
    }
    forall i, j | 0 <= i < j < |s|
      ensures |sorted[i].key| == 2 == |sorted[j].key| && sorted[i].key[0] <= sorted[j].key[0]
    {
      assert sorted[i] in sorted && sorted[j] in sorted;
      var a, b := sorted[i].key, sorted[j].key;
      assert a == [a[0], a[1]] && b == [b[0], b[1]] && LexLe(a, b);
      LexPair(a[0], a[1], b[0], b[1]);
    }
  }

  lemma Repeated<T>(s: seq<T>, i: nat, j: nat)
    requires i < j < |s| && s[i] == s[j]
    ensures multiset(s)[s[i]] >= 2
  {
    assert s == s[..i] + [s[i]] + s[i + 1..j] + [s[j]] + s[j + 1..];
  }
}
