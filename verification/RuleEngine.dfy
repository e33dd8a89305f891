// Dynamic cost rules (`DynamicRuleEngine`): compilation, clamping, and application to a cost sheet.
module RuleEngine {
  import opened Wrappers

  const MAX_RULES: nat := 50
  const MULTIPLY_MAX: real := 10.0
  const ABSOLUTE_LIMIT: real := 100000.0

  /** A comparable value of a rule or of a duty's context; booleans are the numbers 0 and 1. */
  datatype Value = Number(n: real) | Text(s: string)

  /** What a JSON member holds where a name is expected: a string, or something Python cannot hash. */
  datatype Name = Str(s: string) | Other | Unhashable

  /** The outcome of reading an action's value as a decimal number. */
  datatype Parsed = NotNumeric | NotANumber | Infinite(negative: bool) | Finite(n: real)

  datatype RawCondition = RawCondition(field: Name, op: Name, value: Option<Value>)

  datatype RawAction = NoAction | RawAction(target: Name, kind: Name, value: Parsed)

  /** One member of the rule list; conditions that are no objects are already filtered away. */
  datatype RawRule = NotAnObject | RawRule(conditions: seq<RawCondition>, action: RawAction)

  datatype Operator = Eq | Ne | Gt | Lt | Ge | Le

  datatype Condition = Condition(field: string, op: Operator, value: Value)

  datatype ActionKind = Multiply | Add | Subtract | Set

  datatype Action = Action(target: string, kind: ActionKind, value: real)

  datatype Rule = Rule(conditions: seq<Condition>, action: Action)

  /** Compiling one rule compiles it, drops it with a warning, or lets an exception through. */
  datatype Compiled<T> = Ok(value: T) | Ignored | Raised

  predicate Modifiable(target: string) {
    target in {"work_cost", "guaranteed_cost", "waiting_cost", "overtime_cost",
               "long_unpaid_break_penalty", "nocturnal_extra", "holiday_extra", "cct_penalties"}
  }

  function OperatorOf(op: string): Option<Operator> {
    if op == "==" then Some(Eq) else if op == "!=" then Some(Ne)
    else if op == ">" then Some(Gt) else if op == "<" then Some(Lt)
    else if op == ">=" then Some(Ge) else if op == "<=" then Some(Le)
    else None
  }

  function CompileCondition(c: RawCondition): Compiled<Condition> {
    if !c.field.Str? || c.field.s == "" then Ignored
    else match c.op
      case Unhashable => Raised
      case Other => Ignored
      case Str(op) =>
        if OperatorOf(op).None? || c.value.None? then Ignored
        else Ok(Condition(c.field.s, OperatorOf(op).value, c.value.value))
  }

  /** Conditions are compiled in order; the first bad one decides. */
  function CompileConditions(cs: seq<RawCondition>): Compiled<seq<Condition>> {
    if cs == [] then Ok([]) else
    match CompileCondition(cs[0])
    case Ignored => Ignored
    case Raised => Raised
    case Ok(first) =>
      match CompileConditions(cs[1..])
      case Ok(rest) => Ok([first] + rest)
      case Ignored => Ignored
      case Raised => Raised
  }

  function KindOf(kind: string): Option<ActionKind> {
    if kind == "multiply" then Some(Multiply) else if kind == "add" then Some(Add)
    else if kind == "subtract" then Some(Subtract) else if kind == "set" then Some(Set)
    else None
  }

  function ClampReal(lo: real, hi: real, x: real): real {
    if x > hi then hi else if x < lo then lo else x
  }

  function ClampParsed(lo: real, hi: real, x: Parsed): real
    requires lo <= hi && (x.Finite? || x.Infinite?)
  {
    match x
    case Infinite(negative) => if negative then lo else hi
    case Finite(n) => ClampReal(lo, hi, n)
  }

  function CompileAction(a: RawAction): Compiled<Action> {
    match a
    case NoAction => Ignored
    case RawAction(target, kind, value) =>
      if target.Unhashable? then Raised
      else if !target.Str? || !Modifiable(target.s) then Ignored
      else if kind.Unhashable? then Raised
      else if !kind.Str? || KindOf(kind.s).None? then Ignored
      else if value.NotNumeric? then Ignored
      else if value.NotANumber? then Raised  // comparing a quiet NaN raises outside the guarded conversion
      else if KindOf(kind.s).value.Multiply? then
        Ok(Action(target.s, Multiply, ClampParsed(0.0, MULTIPLY_MAX, value)))
      else
        Ok(Action(target.s, KindOf(kind.s).value, ClampParsed(-ABSOLUTE_LIMIT, ABSOLUTE_LIMIT, value)))
  }

  function CompileRule(raw: RawRule): Compiled<Rule> {
    if raw.NotAnObject? || raw.conditions == [] then Ignored
    else match CompileConditions(raw.conditions)
      case Ignored => Ignored
      case Raised => Raised
      case Ok(conditions) =>
        match CompileAction(raw.action)
        case Ignored => Ignored
        case Raised => Raised
        case Ok(action) => Ok(Rule(conditions, action))
  }

  // ---- which raw rules are compiled, ignored, or raise ----

  /** A condition with a field name, a known operator and a value. */
  predicate Sound(c: RawCondition) {
    c.field.Str? && c.field.s != "" && c.op.Str? && OperatorOf(c.op.s).Some? && c.value.Some?
  }

  /** A condition on a named field whose operator cannot be looked up at all. */
  predicate Unreadable(c: RawCondition) {
    c.field.Str? && c.field.s != "" && c.op.Unhashable?
  }

  /** A whitelisted target, a known kind, and a number. */
  predicate SoundAction(a: RawAction) {
    && a.RawAction? && a.target.Str? && Modifiable(a.target.s)
    && a.kind.Str? && KindOf(a.kind.s).Some?
    && (a.value.Finite? || a.value.Infinite?)
  }

  /** An action that gets as far as a lookup of something unhashable or the comparison of a not-a-number value. */
  predicate UnreadableAction(a: RawAction) {
    && a.RawAction?
    && (|| a.target.Unhashable?
        || (a.target.Str? && Modifiable(a.target.s)
            && (a.kind.Unhashable? || (a.kind.Str? && KindOf(a.kind.s).Some? && a.value.NotANumber?))))
  }

  predicate AllSound(cs: seq<RawCondition>) {
    forall i :: 0 <= i < |cs| ==> Sound(cs[i])
  }

  /** An unreadable condition behind sound ones only. */
  predicate MeetsUnreadable(cs: seq<RawCondition>) {
    exists i :: 0 <= i < |cs| && Unreadable(cs[i]) && forall j :: 0 <= j < i ==> Sound(cs[j])
  }

  /** The rules that let an exception through, by their raw fields. */
  predicate Raises(raw: RawRule) {
    && raw.RawRule? && raw.conditions != []
    && (MeetsUnreadable(raw.conditions) || (AllSound(raw.conditions) && UnreadableAction(raw.action)))
  }

  predicate WellFormed(raw: RawRule) {
    raw.RawRule? && raw.conditions != [] && AllSound(raw.conditions) && SoundAction(raw.action)
  }

  predicate Malformed(raw: RawRule) {
    !Raises(raw) && !WellFormed(raw)
  }

  lemma ConditionExact(c: RawCondition)
    ensures CompileCondition(c).Raised? <==> Unreadable(c)
    ensures CompileCondition(c).Ok? <==> Sound(c)
  {
  }

  lemma {:induction false} ConditionsExact(cs: seq<RawCondition>)
    ensures CompileConditions(cs).Raised? <==> MeetsUnreadable(cs)
    ensures CompileConditions(cs).Ok? <==> AllSound(cs)
  {
    hide Sound, Unreadable, CompileCondition;
    if cs != [] {
      var rest := cs[1..];
      ConditionsExact(rest);
      ConditionExact(cs[0]);
      if MeetsUnreadable(rest) && Sound(cs[0]) {
        var i :| 0 <= i < |rest| && Unreadable(rest[i]) && forall j :: 0 <= j < i ==> Sound(rest[j]);
        assert Unreadable(cs[i + 1]) && forall j :: 0 <= j < i + 1 ==> j == 0 || cs[j] == rest[j - 1];
      }
      if MeetsUnreadable(cs) && !Unreadable(cs[0]) {
        var i :| 0 <= i < |cs| && Unreadable(cs[i]) && forall j :: 0 <= j < i ==> Sound(cs[j]);
        assert Unreadable(rest[i - 1]) && forall j :: 0 <= j < i - 1 ==> rest[j] == cs[j + 1];
      }
      assert AllSound(cs) <==> Sound(cs[0]) && AllSound(rest) by {
        assert forall j :: 0 < j < |cs| ==> cs[j] == rest[j - 1];
      }
    }
  }

  /** A rule raises, is ignored, or compiles exactly as its raw fields say. */
  lemma CompileExact(raw: RawRule)
    ensures CompileRule(raw).Raised? <==> Raises(raw)
    ensures CompileRule(raw).Ok? <==> WellFormed(raw)
    ensures CompileRule(raw).Ignored? <==> Malformed(raw)
  {
    if raw.RawRule? {
      ConditionsExact(raw.conditions);
    }
  }

  /** Two rules that raise: a multiplier that is not a number, and a list in the operator's place. */
  lemma SomeRulesRaise()
    ensures var sound := RawCondition(Str("is_holiday"), Str("=="), Some(Number(1.0)));
      && CompileRule(RawRule([sound], RawAction(Str("overtime_cost"), Str("multiply"), NotANumber))).Raised?
      && CompileRule(RawRule([sound.(op := Unhashable)], NoAction)).Raised?
  {
    var sound := RawCondition(Str("is_holiday"), Str("=="), Some(Number(1.0)));
    var first := RawRule([sound], RawAction(Str("overtime_cost"), Str("multiply"), NotANumber));
    var second := RawRule([sound.(op := Unhashable)], NoAction);
    assert Raises(first);
    assert Unreadable(second.conditions[0]);
    assert Raises(second);
    CompileExact(first);
    CompileExact(second);
  }

  /** Compiled rules act within the documented limits on whitelisted costs only. */
  ghost predicate Safe(rule: Rule) {
    && Modifiable(rule.action.target)
    && (if rule.action.kind.Multiply? then 0.0 <= rule.action.value <= MULTIPLY_MAX
        else -ABSOLUTE_LIMIT <= rule.action.value <= ABSOLUTE_LIMIT)
  }

  lemma CompiledIsSafe(raw: RawRule)
    ensures CompileRule(raw).Ok? ==> Safe(CompileRule(raw).value)
  {
  }

  /** The rules compiled from the first n of the list; nothing is kept when one of them raises. */
  ghost function CompileTo(rules: seq<RawRule>, n: nat): Compiled<seq<Rule>>
    requires n <= |rules|
  {
    if n == 0 then Ok([]) else
    match CompileTo(rules, n - 1)
    case Ignored => Ignored
    case Raised => Raised
    case Ok(done) =>
      match CompileRule(rules[n - 1])
      case Ok(rule) => Ok(done + [rule])
      case Ignored => Ok(done)
      case Raised => Raised
  }

  /** The engine comes into being exactly when none of the first 50 rules raises. */
  lemma {:induction false} CompileRaises(rules: seq<RawRule>, n: nat)
    requires n <= |rules|
    ensures CompileTo(rules, n).Ok? || CompileTo(rules, n).Raised?
    ensures CompileTo(rules, n).Raised? <==> exists k :: 0 <= k < n && Raises(rules[k])
    ensures CompileTo(rules, n).Ok? ==> |CompileTo(rules, n).value| <= n
    ensures CompileTo(rules, n).Ok? ==> forall r :: r in CompileTo(rules, n).value ==> Safe(r)
  {
    if n > 0 {
      CompileRaises(rules, n - 1);
      CompileExact(rules[n - 1]);
      CompiledIsSafe(rules[n - 1]);
    }
  }

  lemma {:induction false} CompileAgree(a: seq<RawRule>, b: seq<RawRule>, n: nat)
    requires n <= |a| && n <= |b| && forall i :: 0 <= i < n ==> a[i] == b[i]
    ensures CompileTo(a, n) == CompileTo(b, n)
  {
    if n > 0 { CompileAgree(a, b, n - 1); }
  }

  /** A malformed rule compiles to nothing, wherever it stands. */
  lemma {:induction false} MalformedChangesNothing(before: seq<RawRule>, bad: RawRule, after: seq<RawRule>, n: nat)
    requires Malformed(bad) && n <= |after|
    ensures CompileTo(before + [bad] + after, |before| + 1 + n) == CompileTo(before + after, |before| + n)
  {
    var longer, shorter := before + [bad] + after, before + after;
    CompileExact(bad);
    if n == 0 {
      CompileAgree(longer, shorter, |before|);
      CompileRaises(longer, |before|);
      assert longer[|before|] == bad;
    } else {
      MalformedChangesNothing(before, bad, after, n - 1);
      assert longer[|before| + n] == after[n - 1] == shorter[|before| + n - 1];
    }
  }

  // ---- evaluation and application ----

  /** Order of strings by character codes. */
  predicate TextLess(a: string, b: string)
    decreases |a|
  {
    b != [] && (a == [] || a[0] < b[0] || (a[0] == b[0] && TextLess(a[1..], b[1..])))
  }

  predicate Compare(op: Operator, a: Value, b: Value) {
    match op
    case Eq => a == b
    case Ne => a != b
    case Gt => if a.Number? && b.Number? then a.n > b.n else a.Text? && b.Text? && TextLess(b.s, a.s)
    case Lt => if a.Number? && b.Number? then a.n < b.n else a.Text? && b.Text? && TextLess(a.s, b.s)
    case Ge => if a.Number? && b.Number? then a.n >= b.n else a.Text? && b.Text? && !TextLess(a.s, b.s)
    case Le => if a.Number? && b.Number? then a.n <= b.n else a.Text? && b.Text? && !TextLess(b.s, a.s)
  }

  type Context = map<string, Value>

  predicate Matches(rule: Rule, context: Context) {
    forall i :: 0 <= i < |rule.conditions| ==>
      var c := rule.conditions[i];
      c.field in context && Compare(c.op, context[c.field], c.value)
  }

  function Changed(current: real, action: Action): real {
    match action.kind
    case Multiply => current * action.value
    case Add => current + action.value
    case Subtract => current - action.value
    case Set => action.value
  }

  type Costs = map<string, real>

  function ApplyRule(costs: Costs, rule: Rule, context: Context): Costs {
    if Matches(rule, context) && rule.action.target in costs
    then costs[rule.action.target := Changed(costs[rule.action.target], rule.action)]
    else costs
  }

  ghost function ApplyTo(costs: Costs, rules: seq<Rule>, context: Context, n: nat): (after: Costs)
    requires n <= |rules|
    ensures after.Keys == costs.Keys
  {
    if n == 0 then costs else ApplyRule(ApplyTo(costs, rules, context, n - 1), rules[n - 1], context)
  }

  function Magnitude(x: real): real {
    if x < 0.0 then -x else x
  }

  function Power10(k: nat): real {
    if k == 0 then 1.0 else 10.0 * Power10(k - 1)
  }

  /** One safe change multiplies magnitude plus limit at most tenfold. */
  lemma ChangeBound(current: real, action: Action)
    requires action.kind.Multiply? ==> 0.0 <= action.value <= MULTIPLY_MAX
    requires !action.kind.Multiply? ==> -ABSOLUTE_LIMIT <= action.value <= ABSOLUTE_LIMIT
    ensures Magnitude(Changed(current, action)) + ABSOLUTE_LIMIT <= 10.0 * (Magnitude(current) + ABSOLUTE_LIMIT)
  {
    if action.kind.Multiply? {
      ProductBound(current, action.value);
    }
  }

  lemma Product(a: real, b: real)
    requires a >= 0.0 && b >= 0.0
    ensures a * b >= 0.0
  {
  }

  lemma ProductBound(x: real, f: real)
    requires 0.0 <= f <= 10.0
    ensures Magnitude(x * f) <= 10.0 * Magnitude(x)
  {
    var m := Magnitude(x);
    Product(m, f);
    Product(m, 10.0 - f);
    assert m * (10.0 - f) == 10.0 * m - m * f;
    assert Magnitude(x * f) == m * f by {
      if x < 0.0 { assert (-x) * f == -(x * f); }
    }
  }

  /** One rule keeps the keys and grows any cost at most tenfold. */
  lemma ApplyRuleBound(costs: Costs, rule: Rule, context: Context, key: string)
    requires key in costs && Safe(rule)
    ensures ApplyRule(costs, rule, context).Keys == costs.Keys
    ensures Magnitude(ApplyRule(costs, rule, context)[key]) + ABSOLUTE_LIMIT
         <= 10.0 * (Magnitude(costs[key]) + ABSOLUTE_LIMIT)
  {
    hide Changed, Matches;
    if rule.action.target == key {
      ChangeBound(costs[key], rule.action);
    }
  }

  /** After k rules a cost is at most 10^k times its magnitude plus the limit, and no cost appears or vanishes. */
  lemma {:induction false} CostsStayBounded(costs: Costs, rules: seq<Rule>, context: Context, n: nat, key: string)
    requires n <= |rules| && key in costs && forall k :: 0 <= k < |rules| ==> Safe(rules[k])
    ensures ApplyTo(costs, rules, context, n).Keys == costs.Keys
    ensures Magnitude(ApplyTo(costs, rules, context, n)[key]) + ABSOLUTE_LIMIT
         <= Power10(n) * (Magnitude(costs[key]) + ABSOLUTE_LIMIT)
  {
    hide Safe, ApplyRule, Magnitude;
    if n > 0 {
      CostsStayBounded(costs, rules, context, n - 1, key);
      var before := ApplyTo(costs, rules, context, n - 1);
      ApplyRuleBound(before, rules[n - 1], context, key);
      Grow(Power10(n - 1), Magnitude(costs[key]) + ABSOLUTE_LIMIT, Magnitude(before[key]) + ABSOLUTE_LIMIT);
    }
  }

  lemma AllStayBounded(costs: Costs, rules: seq<Rule>, context: Context)
    requires forall k :: 0 <= k < |rules| ==> Safe(rules[k])
    ensures forall key :: key in costs ==> var after := ApplyTo(costs, rules, context, |rules|);
      key in after && Magnitude(after[key]) <= Power10(|rules|) * (Magnitude(costs[key]) + ABSOLUTE_LIMIT)
  {
    hide Safe, Magnitude, Power10, ApplyTo;
    forall key | key in costs
      ensures var after := ApplyTo(costs, rules, context, |rules|);
        key in after && Magnitude(after[key]) <= Power10(|rules|) * (Magnitude(costs[key]) + ABSOLUTE_LIMIT)
    {
      CostsStayBounded(costs, rules, context, |rules|, key);
    }
  }

  lemma Grow(power: real, base: real, now: real)
    requires now <= power * base
    ensures 10.0 * now <= 10.0 * power * base
  {
    assert 10.0 * power * base == 10.0 * (power * base);
  }

  // ---- the engine and the sheet it changes ----

  /** The mutable cost dictionary of one duty. */
  class CostSheet {
    var costs: Costs

    constructor (costs: Costs)
      ensures this.costs == costs
    {
      this.costs := costs;
    }
  }

  class DynamicRuleEngine {
    var compiled: seq<Rule>

    ghost predicate Valid()
      reads this
    {
      |compiled| <= MAX_RULES && forall k :: 0 <= k < |compiled| ==> Safe(compiled[k])
    }

    constructor ()
      ensures compiled == []
    {
      compiled := [];
    }

    /** Compiles the first 50 rules, dropping malformed ones; false when an exception escapes. */
    method Load(rules: seq<RawRule>) returns (ok: bool)
      modifies this
      ensures ok <==> CompileTo(rules, Min(|rules|, MAX_RULES)).Ok?
      ensures !ok <==> exists k :: 0 <= k < Min(|rules|, MAX_RULES) && Raises(rules[k])
      ensures ok ==> compiled == CompileTo(rules, Min(|rules|, MAX_RULES)).value && Valid()
    {
      var limit := Min(|rules|, MAX_RULES);
      CompileRaises(rules, limit);
      compiled := [];
      for k := 0 to limit
        invariant CompileTo(rules, k) == Ok(compiled)
      {
        var result := CompileRule(rules[k]);
        if result.Raised? {
          CompileExact(rules[k]);
          assert exists j :: 0 <= j < limit && Raises(rules[j]);
          return false;
        }
        if result.Ok? {
          compiled := compiled + [result.value];
        }
      }
      ok := true;
    }

    /** Applies the matching rules in order to the sheet, in place. */
    method Apply(context: Context, sheet: CostSheet)
      requires Valid()
      modifies sheet
      ensures sheet.costs == ApplyTo(old(sheet.costs), compiled, context, |compiled|)
      ensures forall key :: key in old(sheet.costs) ==>
        key in sheet.costs
        && Magnitude(sheet.costs[key]) <= Power10(|compiled|) * (Magnitude(old(sheet.costs)[key]) + ABSOLUTE_LIMIT)
    {
      hide Magnitude, Power10, Safe, Matches, Changed;
      ghost var start := sheet.costs;
      AllStayBounded(start, compiled, context);
      for k := 0 to |compiled|
        invariant sheet.costs == ApplyTo(start, compiled, context, k)
      {
        if Matches(compiled[k], context) {
          ApplyAction(compiled[k].action, sheet);
        }
      }
    }

    /** `_CompiledAction.apply`: unknown targets are left alone. */
    method ApplyAction(action: Action, sheet: CostSheet)
      modifies sheet
      ensures sheet.costs == if action.target in old(sheet.costs)
        then old(sheet.costs)[action.target := Changed(old(sheet.costs)[action.target], action)] else old(sheet.costs)
    {
      if action.target in sheet.costs {
        sheet.costs := sheet.costs[action.target := Changed(sheet.costs[action.target], action)];
      }
    }
  }
}
