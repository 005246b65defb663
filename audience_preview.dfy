/** The audience preview route `POST /api/audiences/preview`: validate the
    posted rules, compile them with the route's own copy of the rule
    compiler, and count the customers the resulting filter selects. */
module AudiencePreview {
  import opened Wrappers
  import opened Runtime
  import opened CampaignModel
  import opened Records
  import opened Filters
  import opened QueryBuilder
  import opened QueryBuilderFacts
  import opened RuleSemantics
  import opened QueryCast
  import opened Validations
  import opened Db

  // ---- The inline compiler ----

  /** The route's inline `parseGroup` (the campaign route carries the same
      code): each condition's filter is pushed onto one list, then each
      nested group's, then the list is turned into `{}`, its only element,
      or an `$and`/`$or`. A thrown error ends the walk. It computes exactly
      the compiler that the query builder library defines. */
  method CompileGroup(g: RuleGroup, env: Env, mode: TextPatterns) returns (r: Result<Filter, CompileError>)
    ensures r == ParseGroup(g, env, mode)
    decreases GroupSize(g), 1
  {
    var conditionParts := CompileConditions(g.conditions, env, mode);
    if conditionParts.Err? {
      return Err(conditionParts.error);
    }
    GroupSizeBound(g);
    var groupParts := CompileGroups(g.groups, env, mode);
    if groupParts.Err? {
      return Err(groupParts.error);
    }
    var parts := conditionParts.value + groupParts.value;
    if |parts| == 0 {
      r := Ok(MatchAll);
    } else if |parts| == 1 {
      r := Ok(parts[0]);
    } else if g.logicalOperator == And {
      r := Ok(AllOf(parts));
    } else {
      r := Ok(AnyOf(parts));
    }
  }

  /** The loop over the group's conditions. */
  method CompileConditions(cs: seq<RuleCondition>, env: Env, mode: TextPatterns) returns (r: Result<seq<Filter>, CompileError>)
    ensures r == ParseConditions(cs, env, mode)
  {
    var parts: seq<Filter> := [];
    var i := 0;
    while i < |cs|
      invariant 0 <= i <= |cs| && |parts| == i
      invariant forall k :: 0 <= k < i ==> ParseCondition(cs[k], env, mode) == Ok(parts[k])
    {
      var f := ParseCondition(cs[i], env, mode);
      if f.Err? {
        ConditionsFirstError(cs, i, env, mode);
        return Err(f.error);
      }
      parts := parts + [f.value];
      i := i + 1;
    }
    ConditionsOk(cs, env, mode);
    assert ParseConditions(cs, env, mode).Ok?;
    assert ParseConditions(cs, env, mode).value == parts;
    r := Ok(parts);
  }

  /** The loop over the nested groups, each compiled recursively. */
  method CompileGroups(gs: seq<RuleGroup>, env: Env, mode: TextPatterns) returns (r: Result<seq<Filter>, CompileError>)
    ensures r == ParseGroups(gs, env, mode)
    decreases GroupsSize(gs), 0
  {
    var parts: seq<Filter> := [];
    var j := 0;
    while j < |gs|
      invariant 0 <= j <= |gs| && |parts| == j
      invariant forall k :: 0 <= k < j ==> ParseGroup(gs[k], env, mode) == Ok(parts[k])
    {
      ElementSmaller(gs, j);
      var f := CompileGroup(gs[j], env, mode);
      if f.Err? {
        GroupsFirstError(gs, j, env, mode);
        return Err(f.error);
      }
      parts := parts + [f.value];
      j := j + 1;
    }
    GroupsOk(gs, env, mode);
    assert ParseGroups(gs, env, mode).Ok?;
    assert ParseGroups(gs, env, mode).value == parts;
    r := Ok(parts);
  }

  // ---- The route ----

  /** The route's answers: 400 for a rule set the schema refuses; 200 with
      size 0 for a rule set with no conditions and no groups; 200 with every
      customer when the compiled filter is `{}`; 200 with the count of
      matching customers otherwise; 500 when compiling throws or when the
      store refuses to cast the filter. */
  datatype Preview =
    | InvalidRules
    | NoRules
    | AllCustomers(audienceSize: nat)
    | Counted(audienceSize: nat, query: Filter)
    | CompileFailed(error: CompileError)
    | CastRejected(castError: CastError)

  function Status(p: Preview): int {
    match p
    case InvalidRules => 400
    case CompileFailed(_) => 500
    case CastRejected(_) => 500
    case _ => 200
  }

  function PreviewSpec(rules: RawGroup, customers: seq<Customer>, env: Env, mode: TextPatterns): Preview {
    match ValidateGroup(rules)
    case None => InvalidRules
    case Some(g) =>
      if IsTrulyEmpty(g) then NoRules
      else match ParseGroup(g, env, mode)
        case Err(e) => CompileFailed(e)
        case Ok(f) =>
          if IsEmptyFilter(f) then AllCustomers(|customers|)
          else match CastQuery(f, env)
            case Err(e) => CastRejected(e)
            case Ok(q) => Counted(CountMatching(q, customers), f)
  }

  /** `POST /api/audiences/preview`, reading the store and changing nothing. */
  method PostPreview(store: Store, rules: RawGroup, env: Env, mode: TextPatterns) returns (p: Preview)
    ensures p == PreviewSpec(rules, store.customers, env, mode)
  {
    var validation := ValidateGroup(rules);
    if validation.None? {
      return InvalidRules;
    }
    var g := validation.value;
    if |g.conditions| == 0 && |g.groups| == 0 {
      return NoRules;
    }
    var query := CompileGroup(g, env, mode);
    if query.Err? {
      return CompileFailed(query.error);
    }
    if query.value.MatchAll? {
      return AllCustomers(|store.customers|);
    }
    var cast := CastQuery(query.value, env);
    if cast.Err? {
      return CastRejected(cast.error);
    }
    p := Counted(CountMatching(cast.value, store.customers), query.value);
  }

  // ---- The audience a rule set describes ----

  /** The customers, in store order, that satisfy the rule set as its
      operators describe it. */
  function Audience(g: RuleGroup, cs: seq<Customer>, env: Env): (r: seq<Customer>)
    ensures forall x :: x in r ==> x in cs && GroupHolds(g, x, env)
    ensures forall i :: 0 <= i < |cs| && GroupHolds(g, cs[i], env) ==> cs[i] in r
  {
    if cs == [] then []
    else if GroupHolds(g, cs[0], env) then [cs[0]] + Audience(g, cs[1..], env)
    else Audience(g, cs[1..], env)
  }

  /** A filter that agrees with the rule set on every customer selects the
      rule set's audience. */
  lemma {:induction false} SelectAgrees(f: Filter, g: RuleGroup, cs: seq<Customer>, env: Env)
    requires forall c :: Matches(f, c) <==> GroupHolds(g, c, env)
    ensures Select(f, cs) == Audience(g, cs, env)
  {
    if cs != [] {
      SelectAgrees(f, g, cs[1..], env);
    }
  }

  /** With text patterns compiled as intended and free of metacharacters, a
      rule set that compiles and casts counts its audience exactly. */
  lemma PreviewSound(rules: RawGroup, customers: seq<Customer>, env: Env)
    requires ValidateGroup(rules).Some?
    requires var g := ValidateGroup(rules).value;
      !IsTrulyEmpty(g) && TreeCompiles(g, env) && TreeSafe(g, env, Intended) && TreeCasts(g, env)
    ensures var g := ValidateGroup(rules).value;
            var p := PreviewSpec(rules, customers, env, Intended);
      && Status(p) == 200
      && (p.AllCustomers? || p.Counted?)
      && p.audienceSize == |Audience(g, customers, env)|
  {
    var g := ValidateGroup(rules).value;
    CompilesIff(g, env, Intended);
    GroupSound(g, env, Intended, Customer(0, "", "", 0, 0, None));
    var f := ParseGroup(g, env, Intended).value;
    var q := CastQuery(f, env).value;
    forall c | true
      ensures Matches(q, c) <==> GroupHolds(g, c, env)
    {
      GroupSound(g, env, Intended, c);
    }
    SelectAgrees(q, g, customers, env);
    if f.MatchAll? {
      SelectAll(customers);
    }
  }

  /** The route's outcomes are decided as follows: 400 exactly when the
      schema refuses, size 0 exactly for a truly empty rule set, 500 exactly
      when some condition of the tree does not compile or, compiled, does
      not cast. */
  lemma PreviewOutcomes(rules: RawGroup, customers: seq<Customer>, env: Env, mode: TextPatterns)
    ensures var p := PreviewSpec(rules, customers, env, mode);
      && (p.InvalidRules? <==> ValidateGroup(rules).None?)
      && (p.NoRules? <==> ValidateGroup(rules).Some? && IsTrulyEmpty(ValidateGroup(rules).value))
      && (p.CompileFailed? <==> (ValidateGroup(rules).Some? && !IsTrulyEmpty(ValidateGroup(rules).value)
                        && !TreeCompiles(ValidateGroup(rules).value, env)))
      && (p.CastRejected? <==> (ValidateGroup(rules).Some? && !IsTrulyEmpty(ValidateGroup(rules).value)
                        && TreeCompiles(ValidateGroup(rules).value, env) && !TreeCasts(ValidateGroup(rules).value, env)))
      && (p.AllCustomers? ==> p.audienceSize == |customers|)
      && (p.Counted? ==> p.audienceSize <= |customers| && !p.query.MatchAll?)
  {
    if ValidateGroup(rules).Some? {
      var g := ValidateGroup(rules).value;
      CompilesIff(g, env, mode);
      if ParseGroup(g, env, mode).Ok? {
        TreeCastsIff(g, env, mode);
      }
    }
  }

  /** With the source's text patterns, a rule set whose only condition is a
      STARTS_WITH on a customer's name with a plain-text value previews
      zero customers, whatever the store holds. */
  lemma StartsWithPreviewsNobody(op: LogicalOperator, value: string, customers: seq<Customer>, env: Env)
    requires PlainText(value) && env.regExpOk("^" + value)
    ensures var g := RuleGroup(op, [RuleCondition(Name, StartsWith, RuleValue.Str(value), None)], []);
            PreviewSpec(Encode(g), customers, env, AsWritten) == Counted(0, TextFilter(Name, StartsWith, value, AsWritten))
  {
    var g := RuleGroup(op, [RuleCondition(Name, StartsWith, RuleValue.Str(value), None)], []);
    ValidateEncode(g);
    SingleConditionUnwrapped(g, env, AsWritten);
    var f := TextFilter(Name, StartsWith, value, AsWritten);
    assert ParseGroup(g, env, AsWritten) == Ok(f);
    forall c | true
      ensures !Matches(f, c)
    {
      StartsWithAsWrittenNeverMatches(Name, value, c);
    }
    NothingSelected(f, customers);
  }

  /** A filter no customer matches selects nobody. */
  lemma {:induction false} NothingSelected(f: Filter, cs: seq<Customer>)
    requires forall c :: !Matches(f, c)
    ensures Select(f, cs) == []
  {
    if cs != [] {
      NothingSelected(f, cs[1..]);
    }
  }
}
