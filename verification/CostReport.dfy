// The totals of the crew cost breakdown (`csp_cost_breakdown`) and what rounding each figure can do to them.
module CostReport {
  import opened Wrappers
  import opened RuleEngine

  /** Above this many cents the 28 digits of the decimal context do not suffice. */
  const CENT_LIMIT: int := 10000000000000000000000000000

  /** To the nearest cent, half away from zero. */
  function WholeCents(x: real): int {
    if x >= 0.0 then (x * 100.0 + 0.5).Floor else -((-x * 100.0 + 0.5).Floor)
  }

  predicate Printable(x: real) {
    -CENT_LIMIT < WholeCents(x) < CENT_LIMIT
  }

  /** `_R`: rounds to cents; a figure that needs more than 28 digits is reported as 0. */
  function Cents(x: real): real {
    if Printable(x) then WholeCents(x) as real / 100.0 else 0.0
  }

  lemma WholeCentsClose(x: real)
    ensures -0.005 <= WholeCents(x) as real / 100.0 - x <= 0.005
  {
    var y := if x >= 0.0 then x * 100.0 + 0.5 else -x * 100.0 + 0.5;
    assert y - 1.0 < y.Floor as real <= y;
  }

  /** Rounding moves a figure by at most half a cent exactly when it is printable. */
  lemma CentsClose(x: real)
    ensures -0.005 <= Cents(x) - x <= 0.005 <==> Printable(x)
  {
    WholeCentsClose(x);
    hide WholeCents;
  }

  /** Whole cents are reported as they are, up to 28 digits. */
  lemma CentsExact(cents: int)
    ensures Cents(cents as real / 100.0) == cents as real / 100.0 <==> -CENT_LIMIT < cents < CENT_LIMIT
  {
    var x := cents as real / 100.0;
    if cents >= 0 {
      assert x * 100.0 + 0.5 == cents as real + 0.5;
      assert (cents as real + 0.5).Floor == cents;
    } else {
      assert -x * 100.0 + 0.5 == (-cents) as real + 0.5;
      assert ((-cents) as real + 0.5).Floor == -cents;
    }
    assert WholeCents(x) == cents;
    hide WholeCents;
  }

  /** Figures up to 10^26 - 1 in magnitude are printable. */
  lemma SmallIsPrintable(x: real)
    requires Magnitude(x) <= 99999999999999999999999999.0
    ensures Printable(x)
  {
    WholeCentsClose(x);
    hide WholeCents;
    assert WholeCents(x) as real <= 9999999999999999999999999900.5;
    assert WholeCents(x) as real >= -9999999999999999999999999900.5;
  }

  /** The eight cost components, in the order they are summed. */
  const COMPONENTS: seq<string> := [
    "work_cost", "guaranteed_cost", "waiting_cost", "overtime_cost",
    "long_unpaid_break_penalty", "nocturnal_extra", "holiday_extra", "cct_penalties"]

  predicate HasComponents(costs: Costs) {
    forall i :: 0 <= i < |COMPONENTS| ==> COMPONENTS[i] in costs
  }

  function Row(costs: Costs): (r: seq<real>)
    requires HasComponents(costs)
    ensures |r| == |COMPONENTS| && forall i :: 0 <= i < |r| ==> r[i] == costs[COMPONENTS[i]]
  {
    seq(|COMPONENTS|, i requires 0 <= i < |COMPONENTS| => costs[COMPONENTS[i]])
  }

  function Sum(v: seq<real>, n: nat): real
    requires n <= |v|
  {
    if n == 0 then 0.0 else Sum(v, n - 1) + v[n - 1]
  }

  function SumAll(v: seq<real>): real {
    Sum(v, |v|)
  }

  function AddRows(a: seq<real>, b: seq<real>): (r: seq<real>)
    requires |a| == |b|
    ensures |r| == |a| && forall i :: 0 <= i < |r| ==> r[i] == a[i] + b[i]
  {
    seq(|a|, i requires 0 <= i < |a| => a[i] + b[i])
  }

  lemma {:induction false} SumAddRows(a: seq<real>, b: seq<real>, n: nat)
    requires |a| == |b| && n <= |a|
    ensures Sum(AddRows(a, b), n) == Sum(a, n) + Sum(b, n)
  {
    if n > 0 { SumAddRows(a, b, n - 1); }
  }

  lemma {:induction false} SumAppend(v: seq<real>, x: real, n: nat)
    requires n <= |v|
    ensures Sum(v + [x], n) == Sum(v, n)
  {
    if n > 0 { SumAppend(v, x, n - 1); }
  }

  lemma SumOneMore(v: seq<real>, x: real)
    ensures SumAll(v + [x]) == SumAll(v) + x
  {
    SumAppend(v, x, |v|);
  }

  function RoundAll(v: seq<real>): (r: seq<real>)
    ensures |r| == |v| && forall i :: 0 <= i < |r| ==> r[i] == Cents(v[i])
  {
    seq(|v|, i requires 0 <= i < |v| => Cents(v[i]))
  }

  /** n printable figures, rounded, differ from the exact ones by at most half a cent each. */
  lemma {:induction false} RoundingSpread(exact: seq<real>, n: nat)
    requires n <= |exact| && AllPrintable(exact)
    ensures -0.005 * n as real <= Sum(RoundAll(exact), n) - Sum(exact, n) <= 0.005 * n as real
  {
    hide Cents, Printable;
    if n > 0 {
      RoundingSpread(exact, n - 1);
      CentsClose(exact[n - 1]);
    }
  }

  ghost predicate AllPrintable(v: seq<real>) {
    forall i :: 0 <= i < |v| ==> Printable(v[i])
  }

  /** Any two figures within these distances of the same exact sum. */
  lemma Apart(a: real, b: real, exact: real, n: real, m: real)
    requires -0.005 * n <= a - exact <= 0.005 * n && -0.005 * m <= b - exact <= 0.005 * m
    ensures -0.005 * (n + m) <= a - b <= 0.005 * (n + m)
  {
  }

  datatype Report = Failed | Report(total: real, components: seq<real>, dutyTotals: seq<real>, duties: seq<seq<real>>)

  /** One duty as the breakdown receives it: its base costs and the context rules look at. */
  datatype DutyInput = DutyInput(costs: Costs, context: Context)

  // ---- the exact figures ----

  ghost predicate AllPriced(duties: seq<DutyInput>) {
    forall k :: 0 <= k < |duties| ==> HasComponents(duties[k].costs)
  }

  /** A duty's components once the rules have been applied. */
  ghost function RowOf(duty: DutyInput, rules: seq<Rule>): (row: seq<real>)
    requires HasComponents(duty.costs)
    ensures |row| == |COMPONENTS|
  {
    Row(ApplyTo(duty.costs, rules, duty.context, |rules|))
  }

  ghost function RowsTo(duties: seq<DutyInput>, rules: seq<Rule>, n: nat): (rows: seq<seq<real>>)
    requires n <= |duties| && AllPriced(duties)
    ensures |rows| == n && forall k :: 0 <= k < n ==> rows[k] == RowOf(duties[k], rules)
  {
    if n == 0 then [] else RowsTo(duties, rules, n - 1) + [RowOf(duties[n - 1], rules)]
  }

  ghost predicate Rectangular(rows: seq<seq<real>>) {
    forall k :: 0 <= k < |rows| ==> |rows[k]| == |COMPONENTS|
  }

  function Zeros(): (v: seq<real>)
    ensures |v| == |COMPONENTS| && forall i :: 0 <= i < |v| ==> v[i] == 0.0
  {
    seq(|COMPONENTS|, i => 0.0)
  }

  /** Each component summed over the first n duties. */
  ghost function Columns(rows: seq<seq<real>>, n: nat): (v: seq<real>)
    requires n <= |rows| && Rectangular(rows)
    ensures |v| == |COMPONENTS|
  {
    if n == 0 then Zeros() else AddRows(Columns(rows, n - 1), rows[n - 1])
  }

  function Times(n: nat, x: real): real {
    n as real * x
  }

  function WithOverhead(acc: seq<real>, n: nat, costDuty: real): (v: seq<real>)
    ensures |v| == |acc| + 1 && v[|acc|] == Times(n, costDuty) && forall i :: 0 <= i < |acc| ==> v[i] == acc[i]
  {
    acc + [Times(n, costDuty)]
  }

  ghost function ExactTotals(rows: seq<seq<real>>, costDuty: real, n: nat): (v: seq<real>)
    requires n <= |rows|
    ensures |v| == n && forall k :: 0 <= k < n ==> v[k] == SumAll(rows[k]) + costDuty
  {
    if n == 0 then [] else ExactTotals(rows, costDuty, n - 1) + [SumAll(rows[n - 1]) + costDuty]
  }

  /** The exact crew cost: all rows plus one overhead per duty. */
  ghost function ExactCost(rows: seq<seq<real>>, costDuty: real, n: nat): real
    requires n <= |rows|
  {
    if n == 0 then 0.0 else ExactCost(rows, costDuty, n - 1) + (SumAll(rows[n - 1]) + costDuty)
  }

  /** Adding up the duty totals gives the exact cost. */
  lemma {:induction false} ExactTotalsSum(rows: seq<seq<real>>, costDuty: real, n: nat)
    requires n <= |rows|
    ensures SumAll(ExactTotals(rows, costDuty, n)) == ExactCost(rows, costDuty, n)
  {
    if n > 0 {
      ExactTotalsSum(rows, costDuty, n - 1);
      SumOneMore(ExactTotals(rows, costDuty, n - 1), SumAll(rows[n - 1]) + costDuty);
    }
  }

  /** So does adding up the eight columns and the overhead. */
  lemma {:induction false} ColumnsSum(rows: seq<seq<real>>, costDuty: real, n: nat)
    requires n <= |rows| && Rectangular(rows)
    ensures SumAll(Columns(rows, n)) + n as real * costDuty == ExactCost(rows, costDuty, n)
  {
    if n == 0 {
      SumZero(Zeros(), |COMPONENTS|);
    } else {
      ColumnsSum(rows, costDuty, n - 1);
      OneDutyMore(Columns(rows, n - 1), rows[n - 1], ExactCost(rows, costDuty, n - 1), costDuty, n - 1);
    }
  }

  lemma OneDutyMore(acc: seq<real>, row: seq<real>, cost: real, costDuty: real, n: nat)
    requires |acc| == |row| && SumAll(acc) + n as real * costDuty == cost
    ensures SumAll(AddRows(acc, row)) + (n + 1) as real * costDuty == cost + (SumAll(row) + costDuty)
  {
    SumAddRows(acc, row, |acc|);
    assert (n + 1) as real * costDuty == n as real * costDuty + costDuty;
  }

  lemma {:induction false} SumZero(v: seq<real>, n: nat)
    requires n <= |v| && forall i :: 0 <= i < |v| ==> v[i] == 0.0
    ensures Sum(v, n) == 0.0
  {
    if n > 0 { SumZero(v, n - 1); }
  }

  // ---- the report ----

  /** Every reported figure is the rounded exact one; printable figures add up within half a cent each. */
  ghost predicate Consistent(report: Report, rows: seq<seq<real>>, costDuty: real)
    requires Rectangular(rows)
  {
    var n := |rows|;
    var cost, totals := ExactCost(rows, costDuty, n), ExactTotals(rows, costDuty, n);
    var figures := WithOverhead(Columns(rows, n), n, costDuty);
    report.Report? ==>
      && report.total == Cents(cost) && report.components == RoundAll(figures) && report.dutyTotals == RoundAll(totals)
      && |report.duties| == n && (forall k :: 0 <= k < n ==> report.duties[k] == RoundAll(rows[k]))
      && (Printable(cost) && AllPrintable(totals) ==> DutiesAddUp(report, n))
      && (Printable(cost) && AllPrintable(figures) ==> ComponentsAddUp(report))
  }

  ghost predicate DutiesAddUp(report: Report, n: nat)
    requires report.Report?
  {
    -0.005 * (n + 1) as real <= report.total - SumAll(report.dutyTotals) <= 0.005 * (n + 1) as real
  }

  ghost predicate ComponentsAddUp(report: Report)
    requires report.Report?
  {
    -0.05 <= report.total - SumAll(report.components) <= 0.05
  }

  function RoundRows(rows: seq<seq<real>>): (r: seq<seq<real>>)
    ensures |r| == |rows| && forall k :: 0 <= k < |rows| ==> r[k] == RoundAll(rows[k])
  {
    seq(|rows|, k requires 0 <= k < |rows| => RoundAll(rows[k]))
  }

  lemma ReportConsistent(rows: seq<seq<real>>, costDuty: real)
    requires Rectangular(rows)
    ensures var figures := WithOverhead(Columns(rows, |rows|), |rows|, costDuty);
      var totals := RoundAll(ExactTotals(rows, costDuty, |rows|));
      Consistent(Report(Cents(SumAll(figures)), RoundAll(figures), totals, RoundRows(rows)), rows, costDuty)
  {
    hide Cents, Printable, Sum, ExactTotals, ExactCost, Columns, WithOverhead;
    var n := |rows|;
    var figures, totals := WithOverhead(Columns(rows, n), n, costDuty), ExactTotals(rows, costDuty, n);
    var cost := ExactCost(rows, costDuty, n);
    FiguresSum(rows, costDuty);
    ExactTotalsSum(rows, costDuty, n);
    CentsClose(cost);
    if Printable(cost) && AllPrintable(totals) {
      RoundingSpread(totals, n);
      Apart(Cents(cost), SumAll(RoundAll(totals)), cost, 1.0, n as real);
      assert (n + 1) as real == 1.0 + n as real;
    }
    if Printable(cost) && AllPrintable(figures) {
      RoundingSpread(figures, |figures|);
      Apart(Cents(cost), SumAll(RoundAll(figures)), cost, 1.0, 9.0);
    }
  }

  lemma FiguresSum(rows: seq<seq<real>>, costDuty: real)
    requires Rectangular(rows)
    ensures SumAll(WithOverhead(Columns(rows, |rows|), |rows|, costDuty)) == ExactCost(rows, costDuty, |rows|)
  {
    hide Sum;
    ColumnsSum(rows, costDuty, |rows|);
    SumOneMore(Columns(rows, |rows|), Times(|rows|, costDuty));
  }

  // ---- when every figure is printable ----

  ghost predicate BaseWithin(duties: seq<DutyInput>, bound: real)
    requires AllPriced(duties)
  {
    forall k, i :: 0 <= k < |duties| && 0 <= i < |COMPONENTS| ==> Magnitude(duties[k].costs[COMPONENTS[i]]) <= bound
  }

  lemma AddWithin(total: real, x: real, n: nat, bound: real)
    requires n > 0 && Magnitude(total) <= Times(n - 1, bound) && Magnitude(x) <= bound
    ensures Magnitude(total + x) <= Times(n, bound)
  {
    assert (n - 1) as real == n as real - 1.0;
    assert n as real * bound == (n as real - 1.0) * bound + bound;
  }

  lemma {:induction false} SumWithin(v: seq<real>, n: nat, bound: real)
    requires n <= |v| && forall i :: 0 <= i < |v| ==> Magnitude(v[i]) <= bound
    ensures Magnitude(Sum(v, n)) <= Times(n, bound)
  {
    if n > 0 {
      SumWithin(v, n - 1, bound);
      AddWithin(Sum(v, n - 1), v[n - 1], n, bound);
    }
  }

  /** What one rule list can make of a cost of at most `bound`. */
  ghost function Grown(bound: real, k: nat): real {
    Power10(k) * (bound + ABSOLUTE_LIMIT)
  }

  lemma RowWithin(duty: DutyInput, rules: seq<Rule>, k: nat, bound: real)
    requires HasComponents(duty.costs) && |rules| <= k && forall r :: r in rules ==> Safe(r)
    requires forall i :: 0 <= i < |COMPONENTS| ==> Magnitude(duty.costs[COMPONENTS[i]]) <= bound
    ensures forall i :: 0 <= i < |COMPONENTS| ==> Magnitude(RowOf(duty, rules)[i]) <= Grown(bound, k)
  {
    hide Magnitude, Safe, ApplyTo, Power10;
    NotNegative(duty.costs[COMPONENTS[0]]);
    PowerMonotone(|rules|, k);
    forall i | 0 <= i < |COMPONENTS| ensures Magnitude(RowOf(duty, rules)[i]) <= Grown(bound, k) {
      CostsStayBounded(duty.costs, rules, duty.context, |rules|, COMPONENTS[i]);
      PowerPositive(|rules|);
      NotNegative(duty.costs[COMPONENTS[i]]);
      ScaleBoth(Power10(|rules|), Power10(k), Magnitude(duty.costs[COMPONENTS[i]]) + ABSOLUTE_LIMIT,
                bound + ABSOLUTE_LIMIT);
    }
  }

  lemma {:induction false} PowerPositive(k: nat)
    ensures Power10(k) >= 1.0
  {
    if k > 0 { PowerPositive(k - 1); }
  }

  lemma {:induction false} PowerMonotone(j: nat, k: nat)
    requires j <= k
    ensures Power10(j) <= Power10(k)
  {
    if j < k {
      PowerMonotone(j, k - 1);
      PowerPositive(k - 1);
    }
  }

  lemma ScaleBoth(f: real, g: real, x: real, y: real)
    requires 0.0 <= f <= g && 0.0 <= x <= y
    ensures f * x <= g * y
  {
    assert f * x <= f * y by { ScaleUp(f, x, y); }
    assert (g - f) * y >= 0.0;
    assert (g - f) * y == g * y - f * y;
  }

  lemma ScaleUp(f: real, x: real, y: real)
    requires f >= 0.0 && x <= y
    ensures f * x <= f * y
  {
    assert f * (y - x) >= 0.0;
    assert f * (y - x) == f * y - f * x;
  }

  lemma {:induction false} ColumnsWithin(rows: seq<seq<real>>, n: nat, bound: real)
    requires n <= |rows| && Rectangular(rows)
    requires forall k, i :: 0 <= k < |rows| && 0 <= i < |COMPONENTS| ==> Magnitude(rows[k][i]) <= bound
    ensures forall i :: 0 <= i < |COMPONENTS| ==> Magnitude(Columns(rows, n)[i]) <= Times(n, bound)
  {
    if n > 0 {
      ColumnsWithin(rows, n - 1, bound);
      forall i | 0 <= i < |COMPONENTS| ensures Magnitude(Columns(rows, n)[i]) <= Times(n, bound) {
        AddWithin(Columns(rows, n - 1)[i], rows[n - 1][i], n, bound);
      }
    }
  }

  lemma {:induction false} CostWithin(rows: seq<seq<real>>, costDuty: real, n: nat, bound: real)
    requires n <= |rows| && forall k :: 0 <= k < |rows| ==> Magnitude(SumAll(rows[k]) + costDuty) <= bound
    ensures Magnitude(ExactCost(rows, costDuty, n)) <= Times(n, bound)
  {
    hide Sum;
    if n > 0 {
      CostWithin(rows, costDuty, n - 1, bound);
      AddWithin(ExactCost(rows, costDuty, n - 1), SumAll(rows[n - 1]) + costDuty, n, bound);
    }
  }

  /** Duties, rules and costs small enough that no figure of the report can need more than 28 digits. */
  ghost predicate InRange(duties: seq<DutyInput>, rules: nat, costDuty: real, bound: real)
    requires AllPriced(duties)
  {
    && BaseWithin(duties, bound)
    && Times(|duties|, 8.0 * Grown(bound, rules) + Magnitude(costDuty)) <= 99999999999999999999999999.0
  }

  /** In that range the report adds up without exception. */
  lemma InRangePrintable(duties: seq<DutyInput>, rules: seq<Rule>, k: nat, costDuty: real, bound: real)
    requires AllPriced(duties) && InRange(duties, k, costDuty, bound)
    requires |rules| <= k && forall r :: r in rules ==> Safe(r)
    ensures var rows := RowsTo(duties, rules, |duties|);
      && Printable(ExactCost(rows, costDuty, |rows|)) && AllPrintable(ExactTotals(rows, costDuty, |rows|))
      && AllPrintable(WithOverhead(Columns(rows, |rows|), |rows|, costDuty))
  {
    hide Printable, Sum, RowOf, Safe, Grown, ExactCost, ExactTotals, Columns, WithOverhead, Magnitude, Times;
    var rows, n := RowsTo(duties, rules, |duties|), |duties|;
    var m, d := Grown(bound, k), Magnitude(costDuty);
    forall l, i | 0 <= l < n && 0 <= i < |COMPONENTS| ensures Magnitude(rows[l][i]) <= m {
      RowWithin(duties[l], rules, k, bound);
    }
    AllWithin(rows, costDuty, m);
    NotNegative(costDuty);
    if n > 0 { NotNegative(rows[0][0]); }
    Enlarge(n, m, d);
    TotalsPrintable(rows, costDuty, 8.0 * m + d, Times(n, 8.0 * m + d));
    Scaled(n, costDuty);
    FiguresPrintable(Columns(rows, n), n, costDuty, Times(n, 8.0 * m + d));
    SmallIsPrintable(ExactCost(rows, costDuty, n));
  }

  lemma NotNegative(x: real)
    ensures Magnitude(x) >= 0.0
  {
  }

  lemma EightTimes(x: real)
    ensures Times(8, x) == 8.0 * x
  {
  }

  lemma PlusWithin(x: real, y: real, bound: real)
    requires Magnitude(x) <= bound
    ensures Magnitude(x + y) <= bound + Magnitude(y)
  {
  }

  /** Bounds of all exact figures from one bound on the components. */
  lemma AllWithin(rows: seq<seq<real>>, costDuty: real, m: real)
    requires Rectangular(rows)
    requires forall k, i :: 0 <= k < |rows| && 0 <= i < |COMPONENTS| ==> Magnitude(rows[k][i]) <= m
    ensures forall k :: 0 <= k < |rows| ==> Magnitude(SumAll(rows[k]) + costDuty) <= 8.0 * m + Magnitude(costDuty)
    ensures Magnitude(ExactCost(rows, costDuty, |rows|)) <= Times(|rows|, 8.0 * m + Magnitude(costDuty))
    ensures forall i :: 0 <= i < |COMPONENTS| ==> Magnitude(Columns(rows, |rows|)[i]) <= Times(|rows|, m)
  {
    hide Sum, Columns, ExactCost, Magnitude, Times;
    forall k | 0 <= k < |rows| ensures Magnitude(SumAll(rows[k]) + costDuty) <= 8.0 * m + Magnitude(costDuty) {
      SumWithin(rows[k], |COMPONENTS|, m);
      EightTimes(m);
      PlusWithin(SumAll(rows[k]), costDuty, 8.0 * m);
    }
    CostWithin(rows, costDuty, |rows|, 8.0 * m + Magnitude(costDuty));
    ColumnsWithin(rows, |rows|, m);
  }

  lemma Once(n: nat, x: real)
    requires n > 0 && x >= 0.0
    ensures x <= Times(n, x)
  {
    var rest := n as real - 1.0;
    ScaleUp(x, 0.0, rest);
    assert n as real * x == x * rest + x;
  }

  lemma Grow8(n: nat, m: real, d: real)
    requires m >= 0.0 && d >= 0.0
    ensures Times(n, m) <= Times(n, 8.0 * m + d) && Times(n, d) <= Times(n, 8.0 * m + d)
  {
    ScaleUp(n as real, m, 8.0 * m + d);
    ScaleUp(n as real, d, 8.0 * m + d);
  }

  lemma Enlarge(n: nat, m: real, d: real)
    requires d >= 0.0 && (n > 0 ==> m >= 0.0)
    ensures Times(n, m) <= Times(n, 8.0 * m + d) && Times(n, d) <= Times(n, 8.0 * m + d)
    ensures n > 0 ==> 8.0 * m + d <= Times(n, 8.0 * m + d)
  {
    if n > 0 {
      hide Times;
      Grow8(n, m, d);
      Once(n, 8.0 * m + d);
    } else {
      assert Times(0, m) == Times(0, d) == Times(0, 8.0 * m + d) == 0.0;
    }
  }

  lemma TotalsPrintable(rows: seq<seq<real>>, costDuty: real, each: real, most: real)
    requires forall k :: 0 <= k < |rows| ==> Magnitude(SumAll(rows[k]) + costDuty) <= each
    requires |rows| > 0 ==> each <= most
    requires most <= 99999999999999999999999999.0
    ensures AllPrintable(ExactTotals(rows, costDuty, |rows|))
  {
    hide Printable, Sum, Magnitude;
    var totals := ExactTotals(rows, costDuty, |rows|);
    forall k | 0 <= k < |totals| ensures Printable(totals[k]) {
      SmallIsPrintable(totals[k]);
    }
  }

  lemma FiguresPrintable(columns: seq<real>, n: nat, costDuty: real, most: real)
    requires most <= 99999999999999999999999999.0
    requires forall i :: 0 <= i < |columns| ==> Magnitude(columns[i]) <= most
    requires Magnitude(Times(n, costDuty)) <= most
    ensures AllPrintable(WithOverhead(columns, n, costDuty))
  {
    hide Printable, WithOverhead, Times, Magnitude;
    var figures := WithOverhead(columns, n, costDuty);
    forall i | 0 <= i < |figures| ensures Printable(figures[i]) {
      SmallIsPrintable(figures[i]);
    }
  }

  lemma Scaled(n: nat, x: real)
    ensures Magnitude(Times(n, x)) == Times(n, Magnitude(x))
  {
    if x < 0.0 {
      assert n as real * x == -(n as real * -x);
      ScaleUp(n as real, 0.0, -x);
    } else {
      ScaleUp(n as real, 0.0, x);
    }
  }

  // ---- the program ----

  /** `csp_cost_breakdown` from the duties' base costs on; fails when loading the rules raises. */
  method CostBreakdown(duties: seq<DutyInput>, rawRules: seq<RawRule>, costDuty: real)
    returns (report: Report, ghost rules: seq<Rule>)
    requires AllPriced(duties)
    ensures report.Failed? <==> exists k :: 0 <= k < Min(|rawRules|, MAX_RULES) && Raises(rawRules[k])
    ensures |rules| <= Min(|rawRules|, MAX_RULES) && forall r :: r in rules ==> Safe(r)
    ensures report.Report? ==> CompileTo(rawRules, Min(|rawRules|, MAX_RULES)) == Ok(rules)
    ensures Rectangular(RowsTo(duties, rules, |duties|))
    ensures Consistent(report, RowsTo(duties, rules, |duties|), costDuty)
    ensures report.Report? && (exists bound :: InRange(duties, Min(|rawRules|, MAX_RULES), costDuty, bound)) ==>
      DutiesAddUp(report, |duties|) && ComponentsAddUp(report)
  {
    hide Cents, Printable, Sum, Safe, CompileRule, Raises, Magnitude, Power10, InRange, AllPrintable, ExactCost,
      ExactTotals, Columns;
    rules := [];
    var engine := new DynamicRuleEngine();
    CompileRaises(rawRules, Min(|rawRules|, MAX_RULES));
    var ok := engine.Load(rawRules);
    if !ok {
      return Failed, [];
    }
    rules := engine.compiled;
    var acc, rows, totals := Sheet(engine, duties, costDuty, rules);
    var figures := WithOverhead(acc, |duties|, costDuty);
    assert |rows| == |duties|;
    ReportConsistent(rows, costDuty);
    report := Report(Cents(SumAll(figures)), RoundAll(figures), totals, RoundRows(rows));
    if bound :| InRange(duties, Min(|rawRules|, MAX_RULES), costDuty, bound) {
      InRangePrintable(duties, rules, Min(|rawRules|, MAX_RULES), costDuty, bound);
    }
  }

  /** The loop over the duties. */
  method Sheet(engine: DynamicRuleEngine, duties: seq<DutyInput>, costDuty: real, ghost rules: seq<Rule>)
    returns (acc: seq<real>, rows: seq<seq<real>>, totals: seq<real>)
    requires engine.Valid() && engine.compiled == rules && AllPriced(duties)
    ensures rows == RowsTo(duties, rules, |duties|) && Rectangular(rows)
    ensures acc == Columns(rows, |rows|) && totals == RoundAll(ExactTotals(rows, costDuty, |rows|))
  {
    acc, rows, totals := Zeros(), [], [];
    hide Cents, Sum, RowOf;
    for n := 0 to |duties|
      invariant engine.Valid() && engine.compiled == rules
      invariant rows == RowsTo(duties, rules, n) && Rectangular(rows)
      invariant acc == Columns(rows, n) && totals == RoundAll(ExactTotals(rows, costDuty, n))
    {
      var row := PriceDuty(engine, duties[n], rules);
      FiguresAgree(rows + [row], rows, costDuty, n);
      acc, rows, totals := AddRows(acc, row), rows + [row], totals + [Cents(SumAll(row) + costDuty)];
    }
  }

  lemma {:induction false} FiguresAgree(a: seq<seq<real>>, b: seq<seq<real>>, costDuty: real, n: nat)
    requires n <= |a| && n <= |b| && Rectangular(a) && Rectangular(b) && forall i :: 0 <= i < n ==> a[i] == b[i]
    ensures Columns(a, n) == Columns(b, n) && ExactTotals(a, costDuty, n) == ExactTotals(b, costDuty, n)
  {
    if n > 0 { FiguresAgree(a, b, costDuty, n - 1); }
  }

  method PriceDuty(engine: DynamicRuleEngine, duty: DutyInput, ghost rules: seq<Rule>) returns (row: seq<real>)
    requires engine.Valid() && engine.compiled == rules && HasComponents(duty.costs)
    ensures row == RowOf(duty, rules)
    ensures engine.Valid() && engine.compiled == rules
  {
    hide Safe, Magnitude, Power10;
    var sheet := new CostSheet(duty.costs);
    engine.Apply(duty.context, sheet);
    row := Row(sheet.costs);
  }
}
