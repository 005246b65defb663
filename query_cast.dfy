/** What Mongoose does to a filter before it sends it to the store: every
    compared value is cast to the schema type of its customer path (`Number`
    for `totalSpends` and `visitCount`, `Date` for `lastActiveDate`,
    `String` with the path's setters for `name` and `email`). A value that
    does not cast, or a `$regex` on a path that is not a `String`, makes the
    query fail before it reaches the store. */
module QueryCast {
  import opened Wrappers
  import opened Runtime
  import opened CampaignModel
  import opened Filters
  import opened QueryBuilder
  import opened QueryBuilderFacts
  import Strings

  datatype CastError =
    | CastFailed(field: Field)      // a CastError for the path
    | RegexNotAllowed(field: Field) // "Can't use $regex" on a Number or Date path

  /** A numeric string in this range is read by `castDate` as a date text;
      outside it, as a time value in milliseconds. */
  const YearTextLow: int := -271820
  const YearTextHigh: int := 275761

  /** `castNumber` on a value that is not empty: `Number(..)` of a string,
      the time value of a date; None is NaN, which does not cast. */
  function QueryNumber(v: RuleValue, env: Env): Option<int> {
    match v
    case Str(s) => env.numberOf(s)
    case Num(n) => Some(n)
    case Date(t) => DateOfNumber(t)
  }

  /** `castDate` on a value that is not empty: a number is a time value; a
      numeric string outside the year range is a time value too, any other
      string is parsed as a date; None is an Invalid Date, which does not
      cast. */
  function QueryDate(v: RuleValue, env: Env): Option<int> {
    match v
    case Str(s) =>
      var n := env.numberOf(s);
      if n.Some? && (n.value >= YearTextHigh || n.value < YearTextLow) then DateOfNumber(n.value) else env.dateOf(s)
    case Num(n) => DateOfNumber(n)
    case Date(t) => DateOfNumber(t)
  }

  /** The setters a `String` path applies to a compared value: `trim` on
      `name`, `trim` then `lowercase` on `email`. */
  function StringSetter(field: Field, s: string): string
    requires IsStringField(field)
  {
    if field == Name then Strings.Trim(s) else Strings.Lower(Strings.Trim(s))
  }

  /** The cast of a compared value to its path's type: Ok(None) is `null`
      (the empty string on a `Number` or `Date` path), Ok(Some(w)) a value
      of the path's type, Err a value that does not cast. */
  function CastOperand(field: Field, v: RuleValue, env: Env): (r: Result<Option<RuleValue>, CastError>)
    ensures IsStringField(field) ==> r == Ok(Some(RuleValue.Str(StringSetter(field, StringOf(v, env)))))
    ensures !IsStringField(field) && v == RuleValue.Str("") ==> r == Ok(None)
    ensures !IsStringField(field) && v != RuleValue.Str("") ==>
      var n := if IsDateField(field) then QueryDate(v, env) else QueryNumber(v, env);
      (r.Err? <==> n.None?) && (r.Ok? ==> r.value == Some(if IsDateField(field) then Date(n.value) else Num(n.value)))
  {
    if IsStringField(field) then Ok(Some(RuleValue.Str(StringSetter(field, StringOf(v, env)))))
    else if v == RuleValue.Str("") then Ok(None)
    else
      var n := if IsDateField(field) then QueryDate(v, env) else QueryNumber(v, env);
      match n
      case None => Err(CastFailed(field))
      case Some(k) => Ok(Some(if IsDateField(field) then Date(k) else Num(k)))
  }

  /** The first error among the casts of a filter's children. */
  function FirstError(rs: seq<Result<Filter, CastError>>): (e: Option<CastError>)
    ensures e.None? <==> forall i :: 0 <= i < |rs| ==> rs[i].Ok?
    ensures e.Some? ==> exists i :: 0 <= i < |rs| && rs[i] == Err(e.value)
  {
    if rs == [] then None
    else if rs[0].Err? then Some(rs[0].error)
    else
      var e := FirstError(rs[1..]);
      assert forall i :: 1 <= i < |rs| ==> rs[i] == rs[1..][i - 1];
      e
  }

  /** The cast of a whole filter: `$and` and `$or` cast their children in
      order and fail with the first failure. */
  function CastQuery(f: Filter, env: Env): Result<Filter, CastError>
    decreases f
  {
    match f
    case MatchAll => Ok(MatchAll)
    case Compare(field, op, v) =>
      (match CastOperand(field, v, env)
       case Err(e) => Err(e)
       case Ok(None) => Ok(CompareNull(field, op))
       case Ok(Some(w)) => Ok(Compare(field, op, w)))
    case CompareNull(_, _) => Ok(f)
    case Regex(field, _, _) => if IsStringField(field) then Ok(f) else Err(RegexNotAllowed(field))
    case AllOf(fs) =>
      var rs := seq(|fs|, i requires 0 <= i < |fs| => CastQuery(fs[i], env));
      (match FirstError(rs)
       case Some(e) => Err(e)
       case None => Ok(AllOf(seq(|fs|, i requires 0 <= i < |fs| => if rs[i].Ok? then rs[i].value else MatchAll))))
    case AnyOf(fs) =>
      var rs := seq(|fs|, i requires 0 <= i < |fs| => CastQuery(fs[i], env));
      (match FirstError(rs)
       case Some(e) => Err(e)
       case None => Ok(AnyOf(seq(|fs|, i requires 0 <= i < |fs| => if rs[i].Ok? then rs[i].value else MatchAll))))
  }

  // ---- Properties of the cast ----

  /** `$and` and `$or` cast exactly when every child casts, and then hold
      the cast children in order. */
  lemma CastChildren(fs: seq<Filter>, env: Env)
    ensures CastQuery(AllOf(fs), env).Ok? <==> forall i :: 0 <= i < |fs| ==> CastQuery(fs[i], env).Ok?
    ensures CastQuery(AnyOf(fs), env).Ok? <==> forall i :: 0 <= i < |fs| ==> CastQuery(fs[i], env).Ok?
    ensures CastQuery(AllOf(fs), env).Ok? ==>
      && CastQuery(AllOf(fs), env).value.AllOf?
      && |CastQuery(AllOf(fs), env).value.children| == |fs|
      && forall i :: 0 <= i < |fs| ==> CastQuery(fs[i], env) == Ok(CastQuery(AllOf(fs), env).value.children[i])
    ensures CastQuery(AnyOf(fs), env).Ok? ==>
      && CastQuery(AnyOf(fs), env).value.AnyOf?
      && |CastQuery(AnyOf(fs), env).value.children| == |fs|
      && forall i :: 0 <= i < |fs| ==> CastQuery(fs[i], env) == Ok(CastQuery(AnyOf(fs), env).value.children[i])
  {
    var rs := seq(|fs|, i requires 0 <= i < |fs| => CastQuery(fs[i], env));
    assert forall i :: 0 <= i < |fs| ==> rs[i] == CastQuery(fs[i], env);
    var e := FirstError(rs);
    assert e.None? <==> forall i :: 0 <= i < |fs| ==> CastQuery(fs[i], env).Ok?;
  }

  /** `{}` casts to itself. */
  lemma CastMatchAll(env: Env)
    ensures CastQuery(MatchAll, env) == Ok(MatchAll)
  {
  }

  /** A combined group casts exactly when each of its parts does, and is
      then the combination of the cast parts. */
  lemma CastCombine(op: LogicalOperator, parts: seq<Filter>, qs: seq<Filter>, env: Env)
    requires |qs| == |parts| && forall i :: 0 <= i < |parts| ==> CastQuery(parts[i], env) == Ok(qs[i])
    ensures CastQuery(Combine(op, parts), env) == Ok(Combine(op, qs))
  {
    if |parts| >= 2 {
      CastChildren(parts, env);
      if op == And {
        assert CastQuery(AllOf(parts), env).value.children == qs;
      } else {
        assert CastQuery(AnyOf(parts), env).value.children == qs;
      }
    }
  }

  /** The casts of filters that all cast. */
  function CastAll(fs: seq<Filter>, env: Env): (qs: seq<Filter>)
    requires forall k :: 0 <= k < |fs| ==> CastQuery(fs[k], env).Ok?
    ensures |qs| == |fs| && forall k :: 0 <= k < |fs| ==> CastQuery(fs[k], env) == Ok(qs[k])
  {
    seq(|fs|, k requires 0 <= k < |fs| => CastQuery(fs[k], env).value)
  }

  lemma CastCombineFails(op: LogicalOperator, parts: seq<Filter>, env: Env)
    ensures CastQuery(Combine(op, parts), env).Ok? <==> forall i :: 0 <= i < |parts| ==> CastQuery(parts[i], env).Ok?
  {
    CastChildren(parts, env);
  }

  /** Comparisons on `Number` paths: a numeric string is compared as the
      number it denotes; a string that is not a number fails; the empty
      string is `null`. */
  lemma NumberPathCast(field: Field, op: CompareOp, s: string, env: Env)
    requires field == TotalSpends || field == VisitCount
    ensures s == "" ==> CastQuery(Compare(field, op, RuleValue.Str(s)), env) == Ok(CompareNull(field, op))
    ensures s != "" && env.numberOf(s).Some? ==>
      CastQuery(Compare(field, op, RuleValue.Str(s)), env) == Ok(Compare(field, op, Num(env.numberOf(s).value)))
    ensures s != "" && env.numberOf(s).None? ==> CastQuery(Compare(field, op, RuleValue.Str(s)), env) == Err(CastFailed(field))
  {
  }

  /** The cast keeps `{}` and only `{}` empty, so the routes' emptiness
      test reads the same before and after it. */
  lemma CastKeepsEmpty(f: Filter, env: Env)
    requires CastQuery(f, env).Ok?
    ensures CastQuery(f, env).value.MatchAll? <==> f.MatchAll?
  {
  }

  /** `$regex` is refused on every path that is not a `String`. */
  lemma RegexOnlyOnStrings(field: Field, p: string, ci: bool, env: Env)
    ensures CastQuery(Regex(field, p, ci), env).Ok? <==> IsStringField(field)
  {
  }

  /** A day window whose threshold is out of the time-value range is an
      Invalid Date, which does not cast. */
  lemma InvalidThresholdFails(op: CompareOp, t: int, env: Env)
    requires DateOfNumber(t).None?
    ensures CastQuery(Compare(LastActiveDate, op, Date(t)), env) == Err(CastFailed(LastActiveDate))
  {
  }

  /** A compared value on a `String` path goes through the path's setters:
      an email is compared trimmed and lower-cased. */
  lemma EmailComparedNormalised(op: CompareOp, v: RuleValue, env: Env)
    ensures CastQuery(Compare(Email, op, v), env) == Ok(Compare(Email, op, RuleValue.Str(Strings.Lower(Strings.Trim(StringOf(v, env))))))
  {
  }
  // ---- Which rule trees cast ----

  /** A compiled condition casts when its day window's threshold is a valid
      date, its text operator is on a `String` path, and its compared value
      casts to the path's type. */
  predicate ConditionCasts(c: RuleCondition, env: Env) {
    if IsDayWindow(c) then
      NumberOf(c.value, env).Some? ==> DateOfNumber(Threshold(NumberOf(c.value, env).value, env)).Some?
    else if IsTextOperator(c.operator) then IsStringField(c.field)
    else QueryValue(c, env).Ok? ==> CastOperand(c.field, QueryValue(c, env).value, env).Ok?
  }

  predicate TreeCasts(g: RuleGroup, env: Env) {
    && (forall i :: 0 <= i < |g.conditions| ==> ConditionCasts(g.conditions[i], env))
    && (forall j :: 0 <= j < |g.groups| ==> TreeCasts(g.groups[j], env))
  }

  lemma ConditionCastsIff(c: RuleCondition, env: Env, mode: TextPatterns)
    requires ParseCondition(c, env, mode).Ok?
    ensures CastQuery(ParseCondition(c, env, mode).value, env).Ok? <==> ConditionCasts(c, env)
  {
  }

  /** A concatenation of filters casts exactly when both lists do. */
  lemma PartsCast(a: seq<Filter>, b: seq<Filter>, env: Env)
    ensures (forall k :: 0 <= k < |a + b| ==> CastQuery((a + b)[k], env).Ok?) <==>
      (forall i :: 0 <= i < |a| ==> CastQuery(a[i], env).Ok?) && (forall j :: 0 <= j < |b| ==> CastQuery(b[j], env).Ok?)
  {
    if (forall i :: 0 <= i < |a| ==> CastQuery(a[i], env).Ok?) && (forall j :: 0 <= j < |b| ==> CastQuery(b[j], env).Ok?) {
      forall k | 0 <= k < |a + b|
        ensures CastQuery((a + b)[k], env).Ok?
      {
        if k >= |a| {
          assert (a + b)[k] == b[k - |a|];
        }
      }
    }
    if forall k :: 0 <= k < |a + b| ==> CastQuery((a + b)[k], env).Ok? {
      forall j | 0 <= j < |b|
        ensures CastQuery(b[j], env).Ok?
      {
        assert (a + b)[|a| + j] == b[j];
      }
      forall i | 0 <= i < |a|
        ensures CastQuery(a[i], env).Ok?
      {
        assert (a + b)[i] == a[i];
      }
    }
  }

  /** The compiled conditions of a group cast exactly when each condition
      casts. */
  lemma ConditionsCastIff(cs: seq<RuleCondition>, a: seq<Filter>, env: Env, mode: TextPatterns)
    requires |a| == |cs| && forall i :: 0 <= i < |cs| ==> ParseCondition(cs[i], env, mode) == Ok(a[i])
    ensures (forall i :: 0 <= i < |a| ==> CastQuery(a[i], env).Ok?) <==> forall i :: 0 <= i < |cs| ==> ConditionCasts(cs[i], env)
  {
    forall i | 0 <= i < |cs|
      ensures CastQuery(a[i], env).Ok? <==> ConditionCasts(cs[i], env)
    {
      ConditionCastsIff(cs[i], env, mode);
    }
  }

  /** The filter of a rule tree that compiles also casts exactly when every
      condition of the tree casts. */
  lemma {:induction false} TreeCastsIff(g: RuleGroup, env: Env, mode: TextPatterns)
    requires ParseGroup(g, env, mode).Ok?
    ensures CastQuery(ParseGroup(g, env, mode).value, env).Ok? <==> TreeCasts(g, env)
    decreases GroupSize(g)
  {
    ConditionsOk(g.conditions, env, mode);
    GroupsOk(g.groups, env, mode);
    var a := ParseConditions(g.conditions, env, mode).value;
    var b := ParseGroups(g.groups, env, mode).value;
    assert ParseGroup(g, env, mode).value == Combine(g.logicalOperator, a + b);
    CastCombineFails(g.logicalOperator, a + b, env);
    PartsCast(a, b, env);
    ConditionsCastIff(g.conditions, a, env, mode);
    forall j | 0 <= j < |g.groups|
      ensures CastQuery(b[j], env).Ok? <==> TreeCasts(g.groups[j], env)
    {
      GroupSizeBound(g);
      ElementSmaller(g.groups, j);
      TreeCastsIff(g.groups[j], env, mode);
    }
  }
}
