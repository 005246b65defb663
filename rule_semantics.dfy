/** What an audience rule means for one customer, written independently of
    the compiler, and the theorem that the compiled filter selects exactly
    the customers the rule describes, together with where the source's text
    operators depart from that meaning. */
module RuleSemantics {
  import opened Wrappers
  import opened Runtime
  import opened CampaignModel
  import opened Records
  import opened Filters
  import opened QueryBuilder
  import opened QueryBuilderFacts
  import opened QueryCast
  import Strings

  // ---- Case-insensitive text relations (ASCII case folding) ----

  /** `s` occurs in `text` at position `i`, up to case. */
  predicate OccursAt(text: string, s: string, i: int) {
    0 <= i <= |text| - |s| && Strings.Lower(text[i..i + |s|]) == Strings.Lower(s)
  }

  predicate ContainsCI(text: string, s: string) {
    exists i :: 0 <= i <= |text| && OccursAt(text, s, i)
  }

  predicate StartsWithCI(text: string, s: string) {
    |s| <= |text| && Strings.Lower(text[..|s|]) == Strings.Lower(s)
  }

  predicate EndsWithCI(text: string, s: string) {
    |s| <= |text| && Strings.Lower(text[|text| - |s|..]) == Strings.Lower(s)
  }

  // ---- The meaning of a rule ----

  /** The order the rule builder's comparison operators ask for between two
      numbers or two time values. */
  predicate OrderHolds(a: int, op: Operator, b: int) {
    match op
    case Equals => a == b
    case NotEquals => a != b
    case GreaterThan => a > b
    case LessThan => a < b
    case _ => false
  }

  /** A number or date the customer has, against the value read as that
      path's type (None is `null`, which only NOT_EQUALS passes). */
  predicate ValueCompares(a: int, op: Operator, w: Option<RuleValue>) {
    match w
    case None => op == NotEquals
    case Some(Num(b)) => OrderHolds(a, op, b)
    case Some(Date(b)) => OrderHolds(a, op, b)
    case Some(Str(_)) => false
  }

  /** A string the customer has, against a string value: equality, or the
      order by character code. */
  predicate TextCompares(a: string, op: Operator, w: Option<RuleValue>) {
    match w
    case Some(Str(b)) =>
      (match op
       case Equals => a == b
       case NotEquals => a != b
       case GreaterThan => StrLess(b, a)
       case LessThan => StrLess(a, b)
       case _ => false)
    case _ => op == NotEquals
  }

  /** A comparison on one customer field; a customer without a last-active
      date equals `null` and differs from every date. */
  predicate FieldCompares(cust: Customer, field: Field, op: Operator, w: Option<RuleValue>) {
    match field
    case TotalSpends => ValueCompares(cust.totalSpends, op, w)
    case VisitCount => ValueCompares(cust.visitCount, op, w)
    case LastActiveDate =>
      if cust.lastActiveDate.Some? then ValueCompares(cust.lastActiveDate.value, op, w)
      else op == (if w.None? then Equals else NotEquals)
    case Name => TextCompares(cust.name, op, w)
    case Email => TextCompares(cust.email, op, w)
  }

  /** The substring, prefix and suffix tests of the text operators. */
  predicate TextTest(op: Operator, text: string, s: string) {
    match op
    case Contains => ContainsCI(text, s)
    case StartsWith => StartsWithCI(text, s)
    case _ => EndsWithCI(text, s)
  }

  /** A condition as the rule builder describes it: day windows relative to
      now; comparisons between the customer's field and the value (its date
      form when `dataType` is 'date') read as the field's schema type; and
      case-insensitive substring, prefix and suffix tests on the string
      fields. */
  predicate CondHolds(c: RuleCondition, cust: Customer, env: Env) {
    if IsDayWindow(c) then
      && NumberOf(c.value, env).Some?
      && cust.lastActiveDate.Some?
      && var t := env.now - NumberOf(c.value, env).value * MsPerDay;
         if c.operator == OlderThanDays then cust.lastActiveDate.value < t
         else cust.lastActiveDate.value >= t
    else if QueryValue(c, env).Err? then false
    else if IsTextOperator(c.operator) then
      var s := StringOf(c.value, env);
      match c.field
      case Name => TextTest(c.operator, cust.name, s)
      case Email => TextTest(c.operator, cust.email, s)
      case _ => false
    else
      var w := CastOperand(c.field, QueryValue(c, env).value, env);
      w.Ok? && FieldCompares(cust, c.field, c.operator, w.value)
  }

  /** A group with no parts places no restriction; an AND group needs every
      part, an OR group at least one. */
  predicate GroupHolds(g: RuleGroup, cust: Customer, env: Env) {
    if |g.conditions| + |g.groups| == 0 then true
    else if g.logicalOperator == And then
      && (forall i :: 0 <= i < |g.conditions| ==> CondHolds(g.conditions[i], cust, env))
      && (forall j :: 0 <= j < |g.groups| ==> GroupHolds(g.groups[j], cust, env))
    else
      || (exists i :: 0 <= i < |g.conditions| && CondHolds(g.conditions[i], cust, env))
      || (exists j :: 0 <= j < |g.groups| && GroupHolds(g.groups[j], cust, env))
  }

  /** The text operators are compiled faithfully only in the intended mode
      and for values without regular-expression metacharacters. */
  predicate CondSafe(c: RuleCondition, env: Env, mode: TextPatterns) {
    !IsDayWindow(c) && IsTextOperator(c.operator) ==> mode == Intended && MetaFree(StringOf(c.value, env))
  }

  predicate TreeSafe(g: RuleGroup, env: Env, mode: TextPatterns) {
    && (forall i :: 0 <= i < |g.conditions| ==> CondSafe(g.conditions[i], env, mode))
    && (forall j :: 0 <= j < |g.groups| ==> TreeSafe(g.groups[j], env, mode))
  }

  // ---- Literal patterns ----

  /** Character-wise agreement of `s` with the text at `i` splits into its
      first character and the rest. */
  lemma AgreeSplit(s: string, text: string, i: nat, ci: bool)
    requires s != [] && i + |s| <= |text|
    ensures (forall k :: 0 <= k < |s| ==> CharMatches(s[k], text[i + k], ci)) <==>
      CharMatches(s[0], text[i], ci) && forall k :: 0 <= k < |s| - 1 ==> CharMatches(s[1..][k], text[i + 1 + k], ci)
  {
    if CharMatches(s[0], text[i], ci) && forall k :: 0 <= k < |s| - 1 ==> CharMatches(s[1..][k], text[i + 1 + k], ci) {
      forall k | 0 <= k < |s|
        ensures CharMatches(s[k], text[i + k], ci)
      {
        if k > 0 {
          assert s[1..][k - 1] == s[k];
        }
      }
    }
    if forall k :: 0 <= k < |s| ==> CharMatches(s[k], text[i + k], ci) {
      forall k | 0 <= k < |s| - 1
        ensures CharMatches(s[1..][k], text[i + 1 + k], ci)
      {
        assert s[1..][k] == s[k + 1];
      }
    }
  }

  lemma MetaFreeTail(s: string)
    requires s != [] && MetaFree(s)
    ensures MetaFree(s[1..]) && !IsRegexMeta(s[0])
  {
    assert forall k :: 0 <= k < |s| - 1 ==> s[1..][k] == s[k + 1];
  }

  /** A metacharacter-free pattern matches at `i` exactly when the text
      holds it there, character by character. */
  lemma {:induction false} LiteralMatch(s: string, text: string, i: nat, ci: bool)
    requires MetaFree(s) && i <= |text|
    ensures MatchHere(s, text, i, ci) <==>
      i + |s| <= |text| && forall k :: 0 <= k < |s| ==> CharMatches(s[k], text[i + k], ci)
  {
    if s != [] {
      MetaFreeTail(s);
      if i < |text| {
        LiteralMatch(s[1..], text, i + 1, ci);
        if i + |s| <= |text| {
          AgreeSplit(s, text, i, ci);
        }
      }
    }
  }

  /** `s + '$'` with `s` metacharacter-free matches at `i` exactly when the
      text ends with `s` from `i` on. */
  lemma {:induction false} LiteralMatchAtEnd(s: string, text: string, i: nat, ci: bool)
    requires MetaFree(s) && i <= |text|
    ensures MatchHere(s + "$", text, i, ci) <==>
      i + |s| == |text| && forall k :: 0 <= k < |s| ==> CharMatches(s[k], text[i + k], ci)
  {
    if s == [] {
      assert s + "$" == "$";
      assert ("$")[1..] == [];
    } else {
      assert (s + "$")[0] == s[0];
      assert (s + "$")[1..] == s[1..] + "$";
      MetaFreeTail(s);
      if i < |text| {
        LiteralMatchAtEnd(s[1..], text, i + 1, ci);
        if i + |s| <= |text| {
          AgreeSplit(s, text, i, ci);
        }
      }
    }
  }

  /** Case-folded equality of two slices is character-wise folded equality. */
  lemma LowerSliceEq(text: string, i: nat, s: string)
    requires i + |s| <= |text|
    ensures Strings.Lower(text[i..i + |s|]) == Strings.Lower(s) <==>
      forall k :: 0 <= k < |s| ==> CharMatches(s[k], text[i + k], true)
  {
    var a := Strings.Lower(text[i..i + |s|]);
    var b := Strings.Lower(s);
    if forall k :: 0 <= k < |s| ==> CharMatches(s[k], text[i + k], true) {
      assert forall k :: 0 <= k < |s| ==> a[k] == b[k];
    }
    if a == b {
      forall k | 0 <= k < |s|
        ensures CharMatches(s[k], text[i + k], true)
      {
        assert a[k] == b[k];
      }
    }
  }

  /** In the intended mode CONTAINS, STARTS_WITH and ENDS_WITH with a
      metacharacter-free value are case-insensitive substring, prefix and
      suffix tests. */
  lemma IntendedContains(s: string, text: string)
    requires MetaFree(s)
    ensures RegexSearch(s, text, true) <==> ContainsCI(text, s)
  {
    if RegexSearch(s, text, true) {
      var i :| 0 <= i <= |text| && MatchHere(s, text, i, true);
      LiteralMatch(s, text, i, true);
      LowerSliceEq(text, i, s);
      assert OccursAt(text, s, i);
    }
    if ContainsCI(text, s) {
      var i :| 0 <= i <= |text| && OccursAt(text, s, i);
      LiteralMatch(s, text, i, true);
      LowerSliceEq(text, i, s);
      assert MatchHere(s, text, i, true);
    }
  }

  lemma IntendedStartsWith(s: string, text: string)
    requires MetaFree(s)
    ensures RegexSearch("^" + s, text, true) <==> StartsWithCI(text, s)
  {
    assert ("^" + s)[1..] == s;
    if RegexSearch("^" + s, text, true) {
      var i :| 0 <= i <= |text| && MatchHere("^" + s, text, i, true);
      LiteralMatch(s, text, 0, true);
      LowerSliceEq(text, 0, s);
      assert text[0..|s|] == text[..|s|];
    }
    if StartsWithCI(text, s) {
      LiteralMatch(s, text, 0, true);
      LowerSliceEq(text, 0, s);
      assert text[0..|s|] == text[..|s|];
      assert MatchHere("^" + s, text, 0, true);
    }
  }

  lemma IntendedEndsWith(s: string, text: string)
    requires MetaFree(s)
    ensures RegexSearch(s + "$", text, true) <==> EndsWithCI(text, s)
  {
    if RegexSearch(s + "$", text, true) {
      var i :| 0 <= i <= |text| && MatchHere(s + "$", text, i, true);
      LiteralMatchAtEnd(s, text, i, true);
      LowerSliceEq(text, i, s);
      assert text[i..i + |s|] == text[|text| - |s|..];
    }
    if EndsWithCI(text, s) {
      var i := |text| - |s|;
      LiteralMatchAtEnd(s, text, i, true);
      LowerSliceEq(text, i, s);
      assert text[i..i + |s|] == text[|text| - |s|..];
    }
  }

  // ---- Soundness of the compiler ----

  /** The filter of a single condition, compiled and then cast, selects
      exactly the customers for which the condition holds. */
  lemma ConditionSound(c: RuleCondition, env: Env, mode: TextPatterns, cust: Customer)
    requires ConditionCompiles(c, env) && CondSafe(c, env, mode) && ConditionCasts(c, env)
    ensures ParseCondition(c, env, mode).Ok?
    ensures CastQuery(ParseCondition(c, env, mode).value, env).Ok?
    ensures Matches(CastQuery(ParseCondition(c, env, mode).value, env).value, cust) <==> CondHolds(c, cust, env)
  {
    ConditionOkIff(c, env, mode);
    ConditionCastsIff(c, env, mode);
    if !IsDayWindow(c) && IsTextOperator(c.operator) {
      var s := StringOf(c.value, env);
      var v := FieldOf(cust, c.field);
      if v.StringField? {
        match c.operator
        case Contains => IntendedContains(s, v.s);
        case StartsWith => IntendedStartsWith(s, v.s);
        case EndsWith => IntendedEndsWith(s, v.s);
      }
    }
  }

  /** What `Combine` means over the conditions' filters `a` followed by the
      nested groups' filters `b`: no part matches everyone, otherwise all
      parts (AND) or some part (OR). */
  lemma CombineMeaning(op: LogicalOperator, a: seq<Filter>, b: seq<Filter>, cust: Customer)
    ensures a + b == [] ==> Matches(Combine(op, a + b), cust)
    ensures a + b != [] && op == And ==>
      (Matches(Combine(op, a + b), cust) <==>
        (forall i :: 0 <= i < |a| ==> Matches(a[i], cust)) && (forall j :: 0 <= j < |b| ==> Matches(b[j], cust)))
    ensures a + b != [] && op == Or ==>
      (Matches(Combine(op, a + b), cust) <==>
        (exists i :: 0 <= i < |a| && Matches(a[i], cust)) || (exists j :: 0 <= j < |b| && Matches(b[j], cust)))
  {
    var parts := a + b;
    if parts != [] {
      CombineOne(op, parts, cust);
      if op == And {
        AllSplit(a, b, cust);
      } else {
        AnySplit(a, b, cust);
      }
    }
  }

  /** `Combine` of a list that is not empty requires every part (for
      `AND`) or some part (for `OR`). */
  lemma CombineOne(op: LogicalOperator, parts: seq<Filter>, cust: Customer)
    requires parts != []
    ensures op == And ==> (Matches(Combine(op, parts), cust) <==> forall i :: 0 <= i < |parts| ==> Matches(parts[i], cust))
    ensures op == Or ==> (Matches(Combine(op, parts), cust) <==> exists i :: 0 <= i < |parts| && Matches(parts[i], cust))
  {
  }

  lemma AllSplit(a: seq<Filter>, b: seq<Filter>, cust: Customer)
    ensures (forall i :: 0 <= i < |a + b| ==> Matches((a + b)[i], cust)) <==>
      (forall i :: 0 <= i < |a| ==> Matches(a[i], cust)) && (forall j :: 0 <= j < |b| ==> Matches(b[j], cust))
  {
    var parts := a + b;
    if (forall i :: 0 <= i < |a| ==> Matches(a[i], cust)) && (forall j :: 0 <= j < |b| ==> Matches(b[j], cust)) {
      forall i | 0 <= i < |parts|
        ensures Matches(parts[i], cust)
      {
        if i >= |a| {
          assert parts[i] == b[i - |a|];
        }
      }
    }
    if forall i :: 0 <= i < |parts| ==> Matches(parts[i], cust) {
      forall i | 0 <= i < |a|
        ensures Matches(a[i], cust)
      {
        assert parts[i] == a[i];
      }
      forall j | 0 <= j < |b|
        ensures Matches(b[j], cust)
      {
        assert parts[|a| + j] == b[j];
      }
    }
  }

  lemma AnySplit(a: seq<Filter>, b: seq<Filter>, cust: Customer)
    ensures (exists i :: 0 <= i < |a + b| && Matches((a + b)[i], cust)) <==>
      (exists i :: 0 <= i < |a| && Matches(a[i], cust)) || (exists j :: 0 <= j < |b| && Matches(b[j], cust))
  {
    var parts := a + b;
    if exists i :: 0 <= i < |parts| && Matches(parts[i], cust) {
      var i :| 0 <= i < |parts| && Matches(parts[i], cust);
      if i >= |a| {
        assert parts[i] == b[i - |a|];
      } else {
        assert parts[i] == a[i];
      }
    }
    if exists i :: 0 <= i < |a| && Matches(a[i], cust) {
      var i :| 0 <= i < |a| && Matches(a[i], cust);
      assert parts[i] == a[i];
    }
    if exists j :: 0 <= j < |b| && Matches(b[j], cust) {
      var j :| 0 <= j < |b| && Matches(b[j], cust);
      assert parts[|a| + j] == b[j];
    }
  }

  /** The filter of a rule tree, compiled and then cast, selects exactly
      the customers the tree describes, provided every condition compiles,
      casts, and has its text operator compiled faithfully. */
  lemma {:induction false} GroupSound(g: RuleGroup, env: Env, mode: TextPatterns, cust: Customer)
    requires TreeCompiles(g, env) && TreeSafe(g, env, mode) && TreeCasts(g, env)
    ensures ParseGroup(g, env, mode).Ok?
    ensures CastQuery(ParseGroup(g, env, mode).value, env).Ok?
    ensures Matches(CastQuery(ParseGroup(g, env, mode).value, env).value, cust) <==> GroupHolds(g, cust, env)
    decreases GroupSize(g)
  {
    CompilesIff(g, env, mode);
    ConditionsOk(g.conditions, env, mode);
    GroupsOk(g.groups, env, mode);
    var a := ParseConditions(g.conditions, env, mode).value;
    var b := ParseGroups(g.groups, env, mode).value;
    ParsedParts(g, env, mode);
    forall i | 0 <= i < |g.conditions|
      ensures CastQuery(a[i], env).Ok?
      ensures Matches(CastQuery(a[i], env).value, cust) <==> CondHolds(g.conditions[i], cust, env)
    {
      ConditionSound(g.conditions[i], env, mode, cust);
    }
    forall j | 0 <= j < |g.groups|
      ensures CastQuery(b[j], env).Ok?
      ensures Matches(CastQuery(b[j], env).value, cust) <==> GroupHolds(g.groups[j], cust, env)
    {
      GroupSizeBound(g);
      ElementSmaller(g.groups, j);
      GroupSound(g.groups[j], env, mode, cust);
    }
    CastCombineMeaning(g.logicalOperator, a, b, env, cust);
  }

  /** What `Combine` means, after the cast, over the conditions' filters
      `a` followed by the nested groups' filters `b`, when each of them
      casts. */
  lemma CastCombineMeaning(op: LogicalOperator, a: seq<Filter>, b: seq<Filter>, env: Env, cust: Customer)
    requires forall i :: 0 <= i < |a| ==> CastQuery(a[i], env).Ok?
    requires forall j :: 0 <= j < |b| ==> CastQuery(b[j], env).Ok?
    ensures CastQuery(Combine(op, a + b), env).Ok?
    ensures var m := Matches(CastQuery(Combine(op, a + b), env).value, cust);
      && (a + b == [] ==> m)
      && (a + b != [] && op == And ==>
           (m <==> (forall i :: 0 <= i < |a| ==> Matches(CastQuery(a[i], env).value, cust))
                   && (forall j :: 0 <= j < |b| ==> Matches(CastQuery(b[j], env).value, cust))))
      && (a + b != [] && op == Or ==>
           (m <==> (exists i :: 0 <= i < |a| && Matches(CastQuery(a[i], env).value, cust))
                   || (exists j :: 0 <= j < |b| && Matches(CastQuery(b[j], env).value, cust))))
  {
    var parts := a + b;
    PartsCast(a, b, env);
    var qs := CastAll(parts, env);
    var qa, qb := qs[..|a|], qs[|a|..];
    forall i | 0 <= i < |a|
      ensures qa[i] == CastQuery(a[i], env).value
    {
      assert parts[i] == a[i];
    }
    forall j | 0 <= j < |b|
      ensures qb[j] == CastQuery(b[j], env).value
    {
      assert parts[|a| + j] == b[j];
    }
    CastCombine(op, parts, qs, env);
    assert qs == qa + qb;
    CombineMeaning(op, qa, qb, cust);
  }

  /** A group compiles to `Combine` of its conditions' and nested groups'
      filters. */
  lemma ParsedParts(g: RuleGroup, env: Env, mode: TextPatterns)
    requires ParseConditions(g.conditions, env, mode).Ok? && ParseGroups(g.groups, env, mode).Ok?
    ensures ParseGroup(g, env, mode) ==
      Ok(Combine(g.logicalOperator, ParseConditions(g.conditions, env, mode).value + ParseGroups(g.groups, env, mode).value))
  {
  }

  // ---- The text operators as written ----

  /** The values the lemmas below speak about: no regular-expression
      metacharacter and no `/`, so that the pattern the source builds has no
      metacharacter but its own `^` and `$`, and the matcher of the filter
      language reads it as a regular expression would. */
  predicate PlainText(s: string) {
    MetaFree(s) && '/' !in s
  }

  /** A pattern that consumes a character and then asserts the start of the
      text matches nowhere. */
  lemma NoMatchAfterCaret(x: char, rest: string, text: string, i: nat, ci: bool)
    requires i <= |text| && x != '^' && x != '$'
    ensures !MatchHere([x, '^'] + rest, text, i, ci)
  {
    assert ([x, '^'] + rest)[1..] == ['^'] + rest;
  }

  /** A pattern with an end-of-text assertion followed by `/` matches nowhere. */
  lemma {:induction false} NoMatchBeforeSlash(x: string, rest: string, text: string, i: nat, ci: bool)
    requires i <= |text|
    ensures !MatchHere(x + "$/" + rest, text, i, ci)
    decreases |x|
  {
    if x == [] {
      assert x + "$/" + rest == "$/" + rest;
      assert ("$/" + rest)[1..] == "/" + rest;
    } else {
      var p := x + "$/" + rest;
      assert p[0] == x[0];
      assert p[1..] == x[1..] + "$/" + rest;
      if i < |text| {
        NoMatchBeforeSlash(x[1..], rest, text, i + 1, ci);
      }
      if x[0] == '^' || x[0] == '$' {
        NoMatchBeforeSlash(x[1..], rest, text, i, ci);
      }
    }
  }

  lemma {:induction false} EscapeAppend(a: string, b: string)
    ensures EscapeSource(a + b) == EscapeSource(a) + EscapeSource(b)
  {
    if a == [] {
      assert a + b == b;
    } else {
      assert (a + b)[0] == a[0];
      assert (a + b)[1..] == a[1..] + b;
      EscapeAppend(a[1..], b);
    }
  }

  /** The source's STARTS_WITH pattern string is `/^...` followed by the
      escaped value and `/i`. */
  lemma CaretPattern(s: string)
    ensures RegExpToString("^" + s) == ['/', '^'] + (EscapeSource(s) + "/i")
  {
    var e := EscapeSource(s);
    EscapeCaret(s);
    assert RegExpSource("^" + s) == "^" + e;
    Framed(e);
  }

  lemma EscapeCaret(s: string)
    ensures EscapeSource("^" + s) == "^" + EscapeSource(s)
  {
    var t := "^" + s;
    assert t[0] == '^' && t[1..] == s;
  }

  lemma Framed(e: string)
    ensures "/" + ("^" + e) + "/i" == ['/', '^'] + (e + "/i")
  {
  }

  /** As written, STARTS_WITH matches no customer, for any plain-text value. */
  lemma StartsWithAsWrittenNeverMatches(field: Field, s: string, cust: Customer)
    requires PlainText(s)
    ensures !Matches(TextFilter(field, StartsWith, s, AsWritten), cust)
  {
    var p := RegExpToString("^" + s);
    CaretPattern(s);
    var v := FieldOf(cust, field);
    if v.StringField? {
      forall i | 0 <= i <= |v.s|
        ensures !MatchHere(p, v.s, i, false)
      {
        NoMatchAfterCaret('/', EscapeSource(s) + "/i", v.s, i, false);
      }
    }
  }

  /** As written, ENDS_WITH matches no customer, for any plain-text value. */
  lemma EndsWithAsWrittenNeverMatches(field: Field, s: string, cust: Customer)
    requires PlainText(s)
    ensures !Matches(TextFilter(field, EndsWith, s, AsWritten), cust)
  {
    EscapeAppend(s, "$");
    assert EscapeSource("$") == "$";
    var p := RegExpToString(s + "$");
    assert s + "$" != [];
    assert p == ("/" + EscapeSource(s)) + "$/" + "i";
    var v := FieldOf(cust, field);
    if v.StringField? {
      forall i | 0 <= i <= |v.s|
        ensures !MatchHere(p, v.s, i, false)
      {
        NoMatchBeforeSlash("/" + EscapeSource(s), "i", v.s, i, false);
      }
    }
  }

  /** As written, CONTAINS with a plain-text value can only match a field
      that holds a `/`. */
  lemma ContainsAsWrittenNeedsSlash(field: Field, s: string, cust: Customer)
    requires PlainText(s)
    requires Matches(TextFilter(field, Contains, s, AsWritten), cust)
    ensures FieldOf(cust, field).StringField? && '/' in FieldOf(cust, field).s
  {
    var text := FieldOf(cust, field).s;
    var p := RegExpToString(s);
    var i :| 0 <= i <= |text| && MatchHere(p, text, i, false);
    assert p[0] == '/';
    assert text[i] == '/';
  }

  /** The rule "name CONTAINS ali" and the customer Alice: the intended
      meaning selects her, the source's filter does not. */
  lemma ContainsCounterexample(env: Env)
    requires env.regExpOk("ali")
    ensures var c := RuleCondition(Name, Contains, RuleValue.Str("ali"), None);
            var alice := Customer(1, "Alice", "alice@example.com", 0, 0, None);
      && CondHolds(c, alice, env)
      && ParseCondition(c, env, Intended).Ok? && Matches(ParseCondition(c, env, Intended).value, alice)
      && ParseCondition(c, env, AsWritten).Ok? && !Matches(ParseCondition(c, env, AsWritten).value, alice)
  {
    AliceOccurs();
    IntendedSelectsAlice(env);
    AsWrittenMissesAlice(env);
  }

  lemma AliceOccurs()
    ensures ContainsCI("Alice", "ali")
  {
    assert "Alice"[0..3] == "Ali";
    assert OccursAt("Alice", "ali", 0);
  }

  /** The rule "name CONTAINS ali" compiles to its text filter in either
      mode. */
  lemma AliceCompiles(env: Env, mode: TextPatterns)
    requires env.regExpOk("ali")
    ensures ParseCondition(RuleCondition(Name, Contains, RuleValue.Str("ali"), None), env, mode) ==
      Ok(TextFilter(Name, Contains, "ali", mode))
  {
    var c := RuleCondition(Name, Contains, RuleValue.Str("ali"), None);
    assert !IsDayWindow(c);
    assert QueryValue(c, env) == Ok(c.value);
    assert StringOf(c.value, env) == "ali";
    assert TextPattern(Contains, "ali") == "ali";
  }

  lemma IntendedSelectsAlice(env: Env)
    requires env.regExpOk("ali")
    ensures var f := ParseCondition(RuleCondition(Name, Contains, RuleValue.Str("ali"), None), env, Intended);
      f.Ok? && Matches(f.value, Customer(1, "Alice", "alice@example.com", 0, 0, None))
  {
    AliceCompiles(env, Intended);
    assert TextFilter(Name, Contains, "ali", Intended) == Regex(Name, "ali", true);
    assert MatchHere("ali", "Alice", 0, true) by {
      assert "ali"[1..] == "li" && "li"[1..] == "i" && "i"[1..] == "";
      assert MatchHere("", "Alice", 3, true);
      assert MatchHere("i", "Alice", 2, true);
      assert MatchHere("li", "Alice", 1, true);
    }
  }

  lemma AsWrittenMissesAlice(env: Env)
    requires env.regExpOk("ali")
    ensures var f := ParseCondition(RuleCondition(Name, Contains, RuleValue.Str("ali"), None), env, AsWritten);
      f.Ok? && !Matches(f.value, Customer(1, "Alice", "alice@example.com", 0, 0, None))
  {
    var alice := Customer(1, "Alice", "alice@example.com", 0, 0, None);
    AliceCompiles(env, AsWritten);
    AsWrittenAliNeedsSlash(alice);
  }

  lemma AsWrittenAliNeedsSlash(alice: Customer)
    requires alice.name == "Alice"
    ensures !Matches(TextFilter(Name, Contains, "ali", AsWritten), alice)
  {
    assert PlainText("ali");
    assert '/' !in alice.name;
    if Matches(TextFilter(Name, Contains, "ali", AsWritten), alice) {
      ContainsAsWrittenNeedsSlash(Name, "ali", alice);
    }
  }
}
