// The Gini coefficient of the fairness report (`_gini_coefficient`), before its final rounding.
module Gini {

  function Total(v: seq<real>): real {
    if v == [] then 0.0 else v[0] + Total(v[1..])
  }

  /** Sum of (position + 1) times value. */
  function Weighted(v: seq<real>, n: nat): real
    requires n <= |v|
  {
    if n == 0 then 0.0 else Weighted(v, n - 1) + n as real * v[n - 1]
  }

  function Insert(x: real, s: seq<real>): (r: seq<real>)
    ensures |r| == |s| + 1
  {
    if s == [] || x <= s[0] then [x] + s else [s[0]] + Insert(x, s[1..])
  }

  function SortReals(s: seq<real>): (r: seq<real>)
    ensures |r| == |s|
  {
    if s == [] then [] else Insert(s[0], SortReals(s[1..]))
  }

  function Coefficient(values: seq<real>): real {
    if values == [] then 0.0 else
    var sorted := SortReals(values);
    var n := |sorted| as real;
    var total := Total(sorted);
    if total <= 0.0 then 0.0 else
    2.0 * Weighted(sorted, |sorted|) / (n * total) - (n + 1.0) / n
  }

  // ---- the textbook definition: mean absolute difference, in any order ----

  function Abs(x: real): real {
    if x < 0.0 then -x else x
  }

  ghost function Distance(x: real, s: seq<real>): real {
    if s == [] then 0.0 else Abs(x - s[0]) + Distance(x, s[1..])
  }

  /** Sum of the absolute differences of all pairs. */
  ghost function PairGaps(v: seq<real>): real {
    if v == [] then 0.0 else Distance(v[0], v[1..]) + PairGaps(v[1..])
  }

  lemma {:induction false} InsertTotals(x: real, s: seq<real>, y: real)
    ensures Total(Insert(x, s)) == x + Total(s)
    ensures Distance(y, Insert(x, s)) == Abs(y - x) + Distance(y, s)
  {
    if s == [] || x <= s[0] {
      assert ([x] + s)[1..] == s;
    } else {
      InsertTotals(x, s[1..], y);
      assert ([s[0]] + Insert(x, s[1..]))[1..] == Insert(x, s[1..]);
    }
  }

  lemma {:induction false} InsertPairs(x: real, s: seq<real>)
    ensures PairGaps(Insert(x, s)) == Distance(x, s) + PairGaps(s)
  {
    if s == [] || x <= s[0] {
      assert ([x] + s)[1..] == s;
    } else {
      InsertPairs(x, s[1..]);
      InsertTotals(x, s[1..], s[0]);
      assert ([s[0]] + Insert(x, s[1..]))[1..] == Insert(x, s[1..]);
    }
  }

  lemma {:induction false} SortKeeps(s: seq<real>)
    ensures Total(SortReals(s)) == Total(s) && PairGaps(SortReals(s)) == PairGaps(s)
  {
    if s != [] {
      SortKeeps(s[1..]);
      InsertTotals(s[0], SortReals(s[1..]), 0.0);
      InsertPairs(s[0], SortReals(s[1..]));
      SortDistance(s[0], s[1..]);
    }
  }

  lemma {:induction false} SortDistance(x: real, s: seq<real>)
    ensures Distance(x, SortReals(s)) == Distance(x, s)
  {
    if s != [] {
      SortDistance(x, s[1..]);
      InsertTotals(s[0], SortReals(s[1..]), x);
    }
  }

  ghost predicate Ascending(s: seq<real>) {
    forall i, j :: 0 <= i < j < |s| ==> s[i] <= s[j]
  }

  lemma {:induction false} InsertAscending(x: real, s: seq<real>)
    requires Ascending(s)
    ensures Ascending(Insert(x, s))
    ensures forall y :: y in Insert(x, s) ==> y == x || y in s
  {
    if s != [] && x > s[0] {
      InsertAscending(x, s[1..]);
      var r := Insert(x, s[1..]);
      forall j | 0 <= j < |r| ensures s[0] <= r[j] {
        assert r[j] in r;
      }
    }
  }

  lemma {:induction false} SortAscending(s: seq<real>)
    ensures Ascending(SortReals(s))
  {
    if s != [] {
      SortAscending(s[1..]);
      InsertAscending(s[0], SortReals(s[1..]));
    }
  }

  /** Putting a value in front shifts every weight by one. */
  lemma {:induction false} WeightedShift(v: seq<real>, n: nat)
    requires v != [] && n <= |v| - 1
    ensures Weighted(v, n + 1) == v[0] + Weighted(v[1..], n) + PartTotal(v[1..], n)
  {
    if n > 0 {
      WeightedShift(v, n - 1);
    } else {
      assert Weighted(v, 1) == Weighted(v, 0) + 1.0 * v[0];
    }
  }

  ghost function PartTotal(v: seq<real>, n: nat): real
    requires n <= |v|
  {
    if n == 0 then 0.0 else PartTotal(v, n - 1) + v[n - 1]
  }

  lemma {:induction false} PartTotalShift(v: seq<real>, n: nat)
    requires v != [] && n <= |v| - 1
    ensures PartTotal(v, n + 1) == v[0] + PartTotal(v[1..], n)
  {
    if n > 0 {
      PartTotalShift(v, n - 1);
    } else {
      assert PartTotal(v, 1) == PartTotal(v, 0) + v[0];
    }
  }

  lemma {:induction false} PartTotalAll(v: seq<real>)
    ensures PartTotal(v, |v|) == Total(v)
  {
    if v != [] {
      PartTotalAll(v[1..]);
      PartTotalShift(v, |v| - 1);
    }
  }

  /** From the smallest value, the distances add up to the surplus over it. */
  lemma {:induction false} DistanceFromLeast(x: real, s: seq<real>)
    requires forall i :: 0 <= i < |s| ==> x <= s[i]
    ensures Distance(x, s) == Total(s) - |s| as real * x
  {
    if s != [] {
      DistanceFromLeast(x, s[1..]);
    }
  }

  /** On ascending values the weighted sum of the code measures all pairwise gaps. */
  lemma {:induction false} WeightedIsPairGaps(v: seq<real>)
    requires Ascending(v)
    ensures Surplus(v) == PairGaps(v)
  {
    if v == [] { return; }
    hide Surplus, Distance;
    WeightedIsPairGaps(v[1..]);
    SurplusStep(v);
    DistanceFromLeast(v[0], v[1..]);
  }

  /** The numerator of the coefficient over n times the total. */
  ghost function Surplus(v: seq<real>): real {
    2.0 * Weighted(v, |v|) - (|v| + 1) as real * Total(v)
  }

  lemma SurplusStep(v: seq<real>)
    requires v != []
    ensures Surplus(v) == Surplus(v[1..]) + (Total(v[1..]) - |v[1..]| as real * v[0])
  {
    hide Weighted;
    var rest := v[1..];
    WeightedShift(v, |rest|);
    PartTotalAll(rest);
    Rearrange(Weighted(v, |v|), Weighted(rest, |rest|), Total(rest), v[0], |rest|, |v|);
  }

  lemma Rearrange(whole: real, w: real, t: real, x: real, n: nat, m: nat)
    requires whole == x + w + t && m == n + 1
    ensures 2.0 * whole - (m + 1) as real * (x + t) == (2.0 * w - (n + 1) as real * t) + (t - n as real * x)
  {
    assert (m + 1) as real == n as real + 2.0 && (n + 1) as real == n as real + 1.0;
    assert (n as real + 2.0) * (x + t) == n as real * x + n as real * t + 2.0 * x + 2.0 * t;
    assert (n as real + 1.0) * t == n as real * t + t;
  }

  /** The coefficient is the mean absolute difference over the mean, however the values are ordered. */
  lemma CoefficientIsMeanDifference(values: seq<real>)
    requires values != [] && Total(values) > 0.0
    ensures Coefficient(values) * (|values| as real * Total(values)) == PairGaps(values)
  {
    hide Weighted, PairGaps, Total, SortReals, Coefficient, Surplus;
    SortKeeps(values);
    SortAscending(values);
    WeightedIsPairGaps(SortReals(values));
    CoefficientSurplus(values);
  }

  ghost function Fraction(w: real, n: real, t: real): real
    requires n > 0.0 && t > 0.0
  {
    ProductPositive(n, t);
    2.0 * w / (n * t) - (n + 1.0) / n
  }

  ghost function Cleared(w: real, n: real, t: real): real {
    2.0 * w - (n + 1.0) * t
  }

  lemma ProductPositive(n: real, t: real)
    requires n > 0.0 && t > 0.0
    ensures n * t > 0.0
  {
  }

  lemma CoefficientSurplus(values: seq<real>)
    requires values != [] && Total(SortReals(values)) > 0.0
    ensures Coefficient(values) * (|values| as real * Total(SortReals(values))) == Surplus(SortReals(values))
  {
    hide Weighted, Total, SortReals, Fraction, Cleared, Coefficient, Surplus;
    var w, n, t := Weighted(SortReals(values), |values|), |values| as real, Total(SortReals(values));
    assert |SortReals(values)| == |values|;
    CoefficientIs(values);
    SurplusIs(SortReals(values));
    ClearFractions(w, n, t);
  }

  lemma CoefficientIs(values: seq<real>)
    requires values != [] && Total(SortReals(values)) > 0.0
    ensures Coefficient(values) ==
      Fraction(Weighted(SortReals(values), |values|), |values| as real, Total(SortReals(values)))
  {
    hide Weighted, Total, SortReals;
  }

  lemma SurplusIs(v: seq<real>)
    ensures Surplus(v) == Cleared(Weighted(v, |v|), |v| as real, Total(v))
  {
    hide Weighted, Total;
    Plus(|v|);
    FactorsAgree((|v| + 1) as real, |v| as real + 1.0, Total(v));
  }

  lemma Plus(n: nat)
    ensures (n + 1) as real == n as real + 1.0
  {
  }

  lemma FactorsAgree(a: real, b: real, t: real)
    requires a == b
    ensures a * t == b * t
  {
  }

  lemma ClearFractions(w: real, n: real, t: real)
    requires n > 0.0 && t > 0.0
    ensures Fraction(w, n, t) * (n * t) == Cleared(w, n, t)
  {
    ProductPositive(n, t);
    var g := Fraction(w, n, t);
    var a, b := 2.0 * w / (n * t), (n + 1.0) / n;
    assert a * (n * t) == 2.0 * w;
    assert b * n == n + 1.0;
    assert b * (n * t) == (b * n) * t;
    assert g * (n * t) == a * (n * t) - b * (n * t);
  }

  // ---- its range ----

  ghost predicate NonNegative(v: seq<real>) {
    forall i :: 0 <= i < |v| ==> v[i] >= 0.0
  }

  ghost predicate All(v: seq<real>, x: real) {
    forall i :: 0 <= i < |v| ==> v[i] == x
  }

  lemma OneMore(n: nat, x: real)
    ensures (n + 1) as real * x == n as real * x + x
  {
    assert (n + 1) as real == n as real + 1.0;
  }

  lemma {:induction false} DistanceBounds(x: real, s: seq<real>)
    requires x >= 0.0 && NonNegative(s)
    ensures 0.0 <= Distance(x, s) <= |s| as real * x + Total(s)
  {
    if s != [] {
      DistanceBounds(x, s[1..]);
      OneMore(|s| - 1, x);
    }
  }

  lemma {:induction false} DistanceZero(x: real, s: seq<real>)
    ensures 0.0 <= Distance(x, s)
    ensures Distance(x, s) == 0.0 <==> All(s, x)
  {
    if s != [] {
      DistanceZero(x, s[1..]);
      assert All(s, x) <==> s[0] == x && All(s[1..], x) by {
        assert forall i :: 0 <= i < |s[1..]| ==> s[1..][i] == s[i + 1];
        assert forall i :: 1 <= i < |s| ==> s[i] == s[1..][i - 1];
      }
    }
  }

  lemma {:induction false} PairGapBounds(v: seq<real>)
    requires v != [] && NonNegative(v)
    ensures 0.0 <= PairGaps(v) <= (|v| - 1) as real * Total(v)
  {
    var rest := v[1..];
    DistanceBounds(v[0], rest);
    if rest != [] {
      PairGapBounds(rest);
      Collect(|rest| - 1, v[0], Total(rest));
    }
  }

  lemma Collect(n: nat, x: real, t: real)
    ensures (n + 1) as real * (x + t) == ((n + 1) as real * x + t) + n as real * t
  {
    OneMore(n, t);
    assert (n + 1) as real * (x + t) == (n + 1) as real * x + (n + 1) as real * t;
  }

  lemma {:induction false} PairGapZero(v: seq<real>)
    requires v != []
    ensures 0.0 <= PairGaps(v)
    ensures PairGaps(v) == 0.0 <==> All(v, v[0])
  {
    var rest := v[1..];
    DistanceZero(v[0], rest);
    assert All(v, v[0]) <==> All(rest, v[0]) by {
      assert forall i :: 0 <= i < |rest| ==> rest[i] == v[i + 1];
      assert forall i :: 1 <= i < |v| ==> v[i] == rest[i - 1];
    }
    if rest != [] {
      PairGapZero(rest);
    }
  }

  /** For non-negative values with a positive sum: between 0 and (n - 1) / n, and 0 exactly on equal values. */
  lemma CoefficientRange(values: seq<real>)
    requires values != [] && Total(values) > 0.0 && NonNegative(values)
    ensures 0.0 <= Coefficient(values) <= (|values| - 1) as real / |values| as real
    ensures Coefficient(values) == 0.0 <==> All(values, values[0])
  {
    hide Coefficient, PairGaps, Total;
    CoefficientIsMeanDifference(values);
    PairGapBounds(values);
    PairGapZero(values);
    ScaleDown(Coefficient(values), |values|, Total(values), PairGaps(values));
  }

  lemma Monotone(scale: real, a: real, b: real)
    requires scale > 0.0 && a * scale <= b * scale
    ensures a <= b
  {
    assert (a - b) * scale <= 0.0;
  }

  lemma ScaleDown(g: real, n: nat, t: real, gaps: real)
    requires n >= 1 && t > 0.0 && g * (n as real * t) == gaps && 0.0 <= gaps <= (n - 1) as real * t
    ensures 0.0 <= g <= (n - 1) as real / n as real
    ensures g == 0.0 <==> gaps == 0.0
  {
    var m, scale := n as real, n as real * t;
    var top := (n - 1) as real / m;
    assert scale > 0.0;
    assert top * scale == (top * m) * t == (n - 1) as real * t;
    Monotone(scale, g, top);
    Monotone(scale, 0.0, g);
    if gaps == 0.0 { Monotone(scale, g, 0.0); }
  }

  /** The order of the duties does not matter. */
  lemma CoefficientPermutes(a: seq<real>, b: seq<real>)
    requires multiset(a) == multiset(b)
    ensures Coefficient(a) == Coefficient(b)
  {
    hide SortReals, Weighted, Total;
    SortAscending(a);
    SortAscending(b);
    SortMembers(a);
    SortMembers(b);
    AscendingUnique(SortReals(a), SortReals(b));
    assert |a| == |multiset(a)| && |b| == |multiset(b)|;
  }

  lemma {:induction false} InsertMembers(x: real, s: seq<real>)
    ensures multiset(Insert(x, s)) == multiset(s) + multiset{x}
  {
    if s != [] && x > s[0] {
      InsertMembers(x, s[1..]);
      assert s == [s[0]] + s[1..];
    }
  }

  lemma {:induction false} SortMembers(s: seq<real>)
    ensures multiset(SortReals(s)) == multiset(s)
  {
    if s != [] {
      SortMembers(s[1..]);
      InsertMembers(s[0], SortReals(s[1..]));
      assert s == [s[0]] + s[1..];
    }
  }

  lemma {:induction false} AscendingUnique(a: seq<real>, b: seq<real>)
    requires Ascending(a) && Ascending(b) && multiset(a) == multiset(b)
    ensures a == b
  {
    assert |a| == |multiset(a)| && |b| == |multiset(b)|;
    if a != [] {
      LeastFirst(a, b);
      LeastFirst(b, a);
      assert a == [a[0]] + a[1..] && b == [b[0]] + b[1..];
      TailMembers(a);
      TailMembers(b);
      AscendingUnique(a[1..], b[1..]);
    }
  }

  lemma LeastFirst(a: seq<real>, b: seq<real>)
    requires Ascending(a) && a != [] && b != [] && multiset(a) == multiset(b)
    ensures a[0] <= b[0]
  {
    assert b[0] in multiset(a);
  }

  lemma TailMembers(a: seq<real>)
    requires a != []
    ensures multiset(a[1..]) == multiset(a) - multiset{a[0]}
  {
    assert a == [a[0]] + a[1..];
  }
}
