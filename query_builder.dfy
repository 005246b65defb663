/** The audience rule compiler `buildMongoQuery` with its inner `parseGroup`
    and `parseCondition`: a rule tree becomes a filter, or compilation fails
    with the error the source throws. */
module QueryBuilder {
  import opened Wrappers
  import opened Runtime
  import opened CampaignModel
  import opened Filters
  import Strings

  datatype CompileError =
    | InvalidDays(operator: Operator)        // "Invalid number of days for ..."
    | InvalidDate(field: Field)              // "Invalid date value for ..."
    | UnsupportedOperator(operator: Operator) // "Unsupported operator: ..."
    | InvalidPattern(operator: Operator)     // the SyntaxError of `new RegExp(...)`

  /** How CONTAINS / STARTS_WITH / ENDS_WITH build their `$regex` value:
      `AsWritten` is the source, which passes the string
      `new RegExp(p, 'i').toString()`; `Intended` passes the pattern itself
      with the case-insensitive option. */
  datatype TextPatterns = AsWritten | Intended

  predicate IsDayOperator(op: Operator) {
    op == OlderThanDays || op == InLastDays
  }

  predicate IsTextOperator(op: Operator) {
    op == Contains || op == StartsWith || op == EndsWith
  }

  /** The first branch of `parseCondition`: a day window on `lastActiveDate`. */
  predicate IsDayWindow(c: RuleCondition) {
    c.field == LastActiveDate && IsDayOperator(c.operator)
  }

  /** `Number(value)`; None is NaN. A Date converts to its time value. */
  function NumberOf(v: RuleValue, env: Env): Option<int> {
    match v
    case Str(s) => env.numberOf(s)
    case Num(n) => Some(n)
    case Date(t) => Some(t)
  }

  /** `new Date(value)`, None when `getTime()` is NaN. */
  function DateOf(v: RuleValue, env: Env): Option<int> {
    match v
    case Str(s) => env.dateOf(s)
    case Num(n) => DateOfNumber(n)
    case Date(t) => DateOfNumber(t)
  }

  /** `String(value)`. */
  function StringOf(v: RuleValue, env: Env): string {
    match v
    case Str(s) => s
    case Num(n) => Strings.DecimalString(n)
    case Date(t) => env.dateText(t)
  }

  /** The cut-off time `now - days` (whole days of 24 hours). */
  function Threshold(days: int, env: Env): int {
    env.now - days * MsPerDay
  }

  /** `RegExp.prototype.source` for a pattern string: `(?:)` for the empty
      pattern; `/` and line terminators escaped. */
  function RegExpSource(p: string): string {
    if p == [] then "(?:)" else EscapeSource(p)
  }

  function EscapeSource(p: string): string {
    if p == [] then []
    else
      var c := p[0];
      (if c == '/' then "\\/"
       else if c == '\n' then "\\n"
       else if c == '\r' then "\\r"
       else if c == '\U{2028}' then "\\u2028"
       else if c == '\U{2029}' then "\\u2029"
       else [c]) + EscapeSource(p[1..])
  }

  /** `new RegExp(p, 'i').toString()`. */
  function RegExpToString(p: string): string {
    "/" + RegExpSource(p) + "/i"
  }

  /** The pattern text of a text operator: `value`, `'^' + value`, `value + '$'`. */
  function TextPattern(op: Operator, s: string): string
    requires IsTextOperator(op)
  {
    if op == Contains then s else if op == StartsWith then "^" + s else s + "$"
  }

  function TextFilter(field: Field, op: Operator, s: string, mode: TextPatterns): Filter
    requires IsTextOperator(op)
  {
    match mode
    case AsWritten => Regex(field, RegExpToString(TextPattern(op, s)), false)
    case Intended => Regex(field, TextPattern(op, s), true)
  }

  /** A text operator's case: `new RegExp(pattern, 'i')` is built first, in
      either mode, and throws when the pattern is not a regular expression. */
  function TextCondition(field: Field, op: Operator, s: string, env: Env, mode: TextPatterns): Result<Filter, CompileError>
    requires IsTextOperator(op)
  {
    if env.regExpOk(TextPattern(op, s)) then Ok(TextFilter(field, op, s, mode)) else Err(InvalidPattern(op))
  }

  /** The value compared against: converted to a date when `dataType` is
      'date' (an unparseable value is an error), otherwise the value itself. */
  function QueryValue(c: RuleCondition, env: Env): Result<RuleValue, CompileError> {
    if c.dataType == Some(DateType) then
      match DateOf(c.value, env)
      case None => Err(InvalidDate(c.field))
      case Some(t) => Ok(Date(t))
    else Ok(c.value)
  }

  /** `parseCondition`. */
  function ParseCondition(c: RuleCondition, env: Env, mode: TextPatterns): Result<Filter, CompileError> {
    if IsDayWindow(c) then
      match NumberOf(c.value, env)
      case None => Err(InvalidDays(c.operator))
      case Some(days) =>
        if c.operator == OlderThanDays then Ok(Compare(c.field, Lt, Date(Threshold(days, env))))
        else Ok(Compare(c.field, Gte, Date(Threshold(days, env))))
    else
      var q :- QueryValue(c, env);
      match c.operator
      case Equals => Ok(Compare(c.field, Eq, q))
      case NotEquals => Ok(Compare(c.field, Ne, q))
      case GreaterThan => Ok(Compare(c.field, Gt, q))
      case LessThan => Ok(Compare(c.field, Lt, q))
      case Contains => TextCondition(c.field, Contains, StringOf(c.value, env), env, mode)
      case StartsWith => TextCondition(c.field, StartsWith, StringOf(c.value, env), env, mode)
      case EndsWith => TextCondition(c.field, EndsWith, StringOf(c.value, env), env, mode)
      case _ => Err(UnsupportedOperator(c.operator))
  }

  /** The conditions' filters, in order; the first failing condition's error. */
  function ParseConditions(cs: seq<RuleCondition>, env: Env, mode: TextPatterns): Result<seq<Filter>, CompileError> {
    if cs == [] then Ok([])
    else
      var f :- ParseCondition(cs[0], env, mode);
      var fs :- ParseConditions(cs[1..], env, mode);
      Ok([f] + fs)
  }

  /** The last step of `parseGroup`: no part gives `{}`, one part is returned
      as it is, more parts are joined by the group's operator. */
  function Combine(op: LogicalOperator, parts: seq<Filter>): Filter {
    if |parts| == 0 then MatchAll
    else if |parts| == 1 then parts[0]
    else if op == And then AllOf(parts)
    else AnyOf(parts)
  }

  /** `parseGroup`: conditions first, then nested groups, then `Combine`. */
  function ParseGroup(g: RuleGroup, env: Env, mode: TextPatterns): Result<Filter, CompileError>
    decreases GroupSize(g), 1
  {
    GroupSizeBound(g);
    var a :- ParseConditions(g.conditions, env, mode);
    var b :- ParseGroups(g.groups, env, mode);
    Ok(Combine(g.logicalOperator, a + b))
  }

  function ParseGroups(gs: seq<RuleGroup>, env: Env, mode: TextPatterns): Result<seq<Filter>, CompileError>
    decreases GroupsSize(gs), 0
  {
    if gs == [] then Ok([])
    else
      GroupsSizeBound(gs);
      var f :- ParseGroup(gs[0], env, mode);
      var fs :- ParseGroups(gs[1..], env, mode);
      Ok([f] + fs)
  }

  /** `buildMongoQuery` as the source has it. */
  function BuildQuery(rules: RuleGroup, env: Env): Result<Filter, CompileError> {
    ParseGroup(rules, env, AsWritten)
  }
}

/** What `buildMongoQuery` promises about the shape of its result and its
    errors, proved about the model of the compiler. */
module QueryBuilderFacts {
  import opened Wrappers
  import opened Runtime
  import opened CampaignModel
  import opened Filters
  import opened QueryBuilder

  // ---- Conditions and nested groups are compiled one by one, in order ----

  lemma {:induction false} ConditionsOk(cs: seq<RuleCondition>, env: Env, mode: TextPatterns)
    ensures ParseConditions(cs, env, mode).Ok? <==> forall i :: 0 <= i < |cs| ==> ParseCondition(cs[i], env, mode).Ok?
    ensures ParseConditions(cs, env, mode).Ok? ==>
      |ParseConditions(cs, env, mode).value| == |cs|
      && forall i :: 0 <= i < |cs| ==> ParseCondition(cs[i], env, mode) == Ok(ParseConditions(cs, env, mode).value[i])
  {
    if cs != [] {
      ConditionsOk(cs[1..], env, mode);
      var r := ParseConditions(cs, env, mode);
      var h := ParseCondition(cs[0], env, mode);
      if (forall i :: 0 <= i < |cs| ==> ParseCondition(cs[i], env, mode).Ok?) {
        assert forall i :: 0 <= i < |cs| - 1 ==> cs[1..][i] == cs[i + 1];
      } else {
        var k :| 0 <= k < |cs| && ParseCondition(cs[k], env, mode).Err?;
        if k > 0 {
          assert cs[1..][k - 1] == cs[k];
        }
      }
      if r.Ok? {
        forall i | 0 <= i < |cs|
          ensures ParseCondition(cs[i], env, mode) == Ok(r.value[i])
        {
          if i > 0 {
            assert cs[1..][i - 1] == cs[i];
          }
        }
      }
    }
  }

  lemma {:induction false} ConditionsFirstError(cs: seq<RuleCondition>, i: nat, env: Env, mode: TextPatterns)
    requires i < |cs| && ParseCondition(cs[i], env, mode).Err?
    requires forall k :: 0 <= k < i ==> ParseCondition(cs[k], env, mode).Ok?
    ensures ParseConditions(cs, env, mode) == Err(ParseCondition(cs[i], env, mode).error)
  {
    if i > 0 {
      assert forall k :: 0 <= k < i - 1 ==> cs[1..][k] == cs[k + 1];
      ConditionsFirstError(cs[1..], i - 1, env, mode);
    }
  }

  lemma {:induction false} GroupsOk(gs: seq<RuleGroup>, env: Env, mode: TextPatterns)
    ensures ParseGroups(gs, env, mode).Ok? <==> forall i :: 0 <= i < |gs| ==> ParseGroup(gs[i], env, mode).Ok?
    ensures ParseGroups(gs, env, mode).Ok? ==>
      |ParseGroups(gs, env, mode).value| == |gs|
      && forall i :: 0 <= i < |gs| ==> ParseGroup(gs[i], env, mode) == Ok(ParseGroups(gs, env, mode).value[i])
  {
    if gs != [] {
      GroupsOk(gs[1..], env, mode);
      var r := ParseGroups(gs, env, mode);
      if (forall i :: 0 <= i < |gs| ==> ParseGroup(gs[i], env, mode).Ok?) {
        assert forall i :: 0 <= i < |gs| - 1 ==> gs[1..][i] == gs[i + 1];
      } else {
        var k :| 0 <= k < |gs| && ParseGroup(gs[k], env, mode).Err?;
        if k > 0 {
          assert gs[1..][k - 1] == gs[k];
        }
      }
      if r.Ok? {
        forall i | 0 <= i < |gs|
          ensures ParseGroup(gs[i], env, mode) == Ok(r.value[i])
        {
          if i > 0 {
            assert gs[1..][i - 1] == gs[i];
          }
        }
      }
    }
  }

  lemma {:induction false} GroupsFirstError(gs: seq<RuleGroup>, i: nat, env: Env, mode: TextPatterns)
    requires i < |gs| && ParseGroup(gs[i], env, mode).Err?
    requires forall k :: 0 <= k < i ==> ParseGroup(gs[k], env, mode).Ok?
    ensures ParseGroups(gs, env, mode) == Err(ParseGroup(gs[i], env, mode).error)
  {
    if i > 0 {
      assert forall k :: 0 <= k < i - 1 ==> gs[1..][k] == gs[k + 1];
      GroupsFirstError(gs[1..], i - 1, env, mode);
    }
  }

  // ---- The shape of a compiled group ----

  /** A group with no conditions and no nested groups compiles to `{}`,
      whatever its operator, and `{}` matches every customer. */
  lemma EmptyGroupMatchesAll(g: RuleGroup, env: Env, mode: TextPatterns)
    requires IsTrulyEmpty(g)
    ensures ParseGroup(g, env, mode) == Ok(MatchAll)
    ensures forall c :: Matches(MatchAll, c)
  {
  }

  /** A group with exactly one condition and no nested groups compiles to
      exactly what that condition compiles to (filter or error): no `$and`
      or `$or` wrapper. */
  lemma SingleConditionUnwrapped(g: RuleGroup, env: Env, mode: TextPatterns)
    requires |g.conditions| == 1 && g.groups == []
    ensures ParseGroup(g, env, mode) == ParseCondition(g.conditions[0], env, mode)
  {
    var c := g.conditions[0];
    assert g.conditions[1..] == [];
    assert ParseConditions(g.conditions[1..], env, mode) == Ok([]);
    match ParseCondition(c, env, mode)
    case Ok(f) =>
      assert [f] + [] == [f];
      assert ParseConditions(g.conditions, env, mode) == Ok([f]);
    case Err(e) =>
      assert ParseConditions(g.conditions, env, mode) == Err(e);
  }

  /** A group with no conditions and exactly one nested group compiles to
      exactly what the nested group compiles to. */
  lemma SingleGroupUnwrapped(g: RuleGroup, env: Env, mode: TextPatterns)
    requires g.conditions == [] && |g.groups| == 1
    ensures ParseGroup(g, env, mode) == ParseGroup(g.groups[0], env, mode)
  {
    var h := g.groups[0];
    assert g.groups[1..] == [];
    assert ParseConditions([], env, mode) == Ok([]);
    assert ParseGroups(g.groups[1..], env, mode) == Ok([]);
    match ParseGroup(h, env, mode)
    case Ok(f) =>
      assert [f] + [] == [f];
      assert ParseGroups(g.groups, env, mode) == Ok([f]);
      assert [] + [f] == [f];
    case Err(e) =>
      assert ParseGroups(g.groups, env, mode) == Err(e);
  }

  /** With two or more parts the result is `$and` for AND and `$or`
      otherwise, over the conditions' filters followed by the nested groups'
      filters, in the order given. */
  lemma {:induction false} ManyPartsCombined(g: RuleGroup, env: Env, mode: TextPatterns)
    requires |g.conditions| + |g.groups| >= 2
    requires ParseGroup(g, env, mode).Ok?
    ensures var f := ParseGroup(g, env, mode).value;
      && (if g.logicalOperator == And then f.AllOf? else f.AnyOf?)
      && |f.children| == |g.conditions| + |g.groups|
      && (forall i :: 0 <= i < |g.conditions| ==> ParseCondition(g.conditions[i], env, mode) == Ok(f.children[i]))
      && (forall j :: 0 <= j < |g.groups| ==> ParseGroup(g.groups[j], env, mode) == Ok(f.children[|g.conditions| + j]))
  {
    ConditionsOk(g.conditions, env, mode);
    GroupsOk(g.groups, env, mode);
  }

  /** Compilation succeeds exactly when every condition of the tree is one
      the compiler accepts: a day count that is a number, a date that
      parses, an operator supported for the field, and a text pattern that
      is a regular expression. */
  predicate ConditionCompiles(c: RuleCondition, env: Env) {
    if IsDayWindow(c) then NumberOf(c.value, env).Some?
    else
      && (c.dataType == Some(DateType) ==> DateOf(c.value, env).Some?)
      && !IsDayOperator(c.operator)
      && (IsTextOperator(c.operator) ==> env.regExpOk(TextPattern(c.operator, StringOf(c.value, env))))
  }

  predicate TreeCompiles(g: RuleGroup, env: Env) {
    && (forall i :: 0 <= i < |g.conditions| ==> ConditionCompiles(g.conditions[i], env))
    && (forall j :: 0 <= j < |g.groups| ==> TreeCompiles(g.groups[j], env))
  }

  lemma ConditionOkIff(c: RuleCondition, env: Env, mode: TextPatterns)
    ensures ParseCondition(c, env, mode).Ok? <==> ConditionCompiles(c, env)
  {
  }

  lemma {:induction false} CompilesIff(g: RuleGroup, env: Env, mode: TextPatterns)
    ensures ParseGroup(g, env, mode).Ok? <==> TreeCompiles(g, env)
    decreases GroupSize(g)
  {
    ConditionsOk(g.conditions, env, mode);
    GroupsOk(g.groups, env, mode);
    forall i | 0 <= i < |g.conditions|
      ensures ParseCondition(g.conditions[i], env, mode).Ok? <==> ConditionCompiles(g.conditions[i], env)
    {
      ConditionOkIff(g.conditions[i], env, mode);
    }
    forall j | 0 <= j < |g.groups|
      ensures ParseGroup(g.groups[j], env, mode).Ok? <==> TreeCompiles(g.groups[j], env)
    {
      GroupSizeBound(g);
      ElementSmaller(g.groups, j);
      CompilesIff(g.groups[j], env, mode);
    }
  }

  lemma {:induction false} ElementSmaller(gs: seq<RuleGroup>, j: nat)
    requires j < |gs|
    ensures GroupSize(gs[j]) < GroupsSize(gs)
  {
    GroupsSizeBound(gs);
    if j > 0 {
      ElementSmaller(gs[1..], j - 1);
      assert gs[1..][j - 1] == gs[j];
    }
  }

  // ---- Conditions ----

  /** The day windows compare `lastActiveDate` with `now - days`:
      OLDER_THAN_DAYS by `<` and IN_LAST_DAYS by `>=`. */
  lemma DayWindowFilters(days: RuleValue, env: Env, mode: TextPatterns, dt: Option<DataType>)
    requires NumberOf(days, env).Some?
    ensures var t := env.now - NumberOf(days, env).value * MsPerDay;
      && ParseCondition(RuleCondition(LastActiveDate, OlderThanDays, days, dt), env, mode) == Ok(Compare(LastActiveDate, Lt, Date(t)))
      && ParseCondition(RuleCondition(LastActiveDate, InLastDays, days, dt), env, mode) == Ok(Compare(LastActiveDate, Gte, Date(t)))
  {
  }

  /** For the same value and clock, a customer with a last-active date
      satisfies exactly one of the two day windows; one without satisfies
      neither. */
  lemma DayWindowsPartition(days: RuleValue, env: Env, mode: TextPatterns, c: Records.Customer)
    requires NumberOf(days, env).Some?
    ensures var older := ParseCondition(RuleCondition(LastActiveDate, OlderThanDays, days, None), env, mode).value;
            var recent := ParseCondition(RuleCondition(LastActiveDate, InLastDays, days, None), env, mode).value;
      && (c.lastActiveDate.Some? ==> (Matches(older, c) <==> !Matches(recent, c)))
      && (c.lastActiveDate.None? ==> !Matches(older, c) && !Matches(recent, c))
  {
  }

  /** A day count that is not a number is an error. */
  lemma DaysNotNumeric(c: RuleCondition, env: Env, mode: TextPatterns)
    requires IsDayWindow(c) && NumberOf(c.value, env).None?
    ensures ParseCondition(c, env, mode) == Err(InvalidDays(c.operator))
  {
  }

  /** Outside a day window, a `dataType: 'date'` value that does not parse as
      a date is an error, reported before any operator check. */
  lemma DateNotParseable(c: RuleCondition, env: Env, mode: TextPatterns)
    requires !IsDayWindow(c) && c.dataType == Some(DateType) && DateOf(c.value, env).None?
    ensures ParseCondition(c, env, mode) == Err(InvalidDate(c.field))
  {
  }

  /** A day operator on any field other than `lastActiveDate` is unsupported
      (unless a date conversion fails first). */
  lemma DayOperatorElsewhere(c: RuleCondition, env: Env, mode: TextPatterns)
    requires c.field != LastActiveDate && IsDayOperator(c.operator)
    requires c.dataType == Some(DateType) ==> DateOf(c.value, env).Some?
    ensures ParseCondition(c, env, mode) == Err(UnsupportedOperator(c.operator))
  {
  }

  /** EQUALS, NOT_EQUALS, GREATER_THAN and LESS_THAN become `$eq`, `$ne`,
      `$gt` and `$lt` on the named field, with the value converted to a date
      when `dataType` is 'date'. */
  lemma ComparisonOperators(c: RuleCondition, env: Env, mode: TextPatterns)
    requires c.operator in {Equals, NotEquals, GreaterThan, LessThan}
    requires QueryValue(c, env).Ok?
    ensures var op := match c.operator
                      case Equals => Eq
                      case NotEquals => Ne
                      case GreaterThan => Gt
                      case _ => Lt;
      ParseCondition(c, env, mode) == Ok(Compare(c.field, op, QueryValue(c, env).value))
    ensures c.dataType == Some(DateType) ==> QueryValue(c, env).value == Date(DateOf(c.value, env).value)
    ensures c.dataType != Some(DateType) ==> QueryValue(c, env).value == c.value
  {
  }

  /** As the source writes it, CONTAINS, STARTS_WITH and ENDS_WITH pass the
      string form of a case-insensitive RegExp of `value`, `'^' + value` and
      `value + '$'` as `$regex`, with no `$options`; a pattern the RegExp
      constructor refuses is an error. */
  lemma TextOperatorsAsWritten(c: RuleCondition, env: Env)
    requires IsTextOperator(c.operator)
    requires QueryValue(c, env).Ok?
    ensures var s := StringOf(c.value, env);
            var p := if c.operator == Contains then s else if c.operator == StartsWith then "^" + s else s + "$";
      ParseCondition(c, env, AsWritten) ==
        if env.regExpOk(p) then Ok(Regex(c.field, "/" + RegExpSource(p) + "/i", false)) else Err(InvalidPattern(c.operator))
  {
  }

  /** A group whose only part is one empty group compiles to `{}`, but two
      empty nested groups compile to a non-empty `$and` of two `{}`s. */
  lemma NestedEmptyGroups(op: LogicalOperator, env: Env, mode: TextPatterns)
    ensures var e := RuleGroup(And, [], []);
      && ParseGroup(RuleGroup(op, [], [e]), env, mode) == Ok(MatchAll)
      && ParseGroup(RuleGroup(op, [], [e, e]), env, mode).Ok?
      && !IsEmptyFilter(ParseGroup(RuleGroup(op, [], [e, e]), env, mode).value)
  {
    var e := RuleGroup(And, [], []);
    SingleGroupUnwrapped(RuleGroup(op, [], [e]), env, mode);
    assert ParseGroup(e, env, mode) == Ok(MatchAll);
    assert [e][1..] == [];
    assert [MatchAll] + [] == [MatchAll];
    assert ParseGroups([e], env, mode) == Ok([MatchAll]);
    assert [e, e][1..] == [e];
    assert [MatchAll] + [MatchAll] == [MatchAll, MatchAll];
    assert ParseGroups([e, e], env, mode) == Ok([MatchAll, MatchAll]);
  }
}
