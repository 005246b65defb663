/** The zod schemas of the request bodies: the audience rule set (conditions
    and recursive groups), sign-up and sign-in, customers and orders. Each
    schema is a parser from the parsed JSON body to the typed value it
    yields, None when `safeParse` fails. Checks run in the order the schema
    lists them, so a `.min(n)` placed before `.trim()` measures the
    untrimmed string. */
module Validations {
  import opened Wrappers
  import opened Runtime
  import opened CampaignModel
  import Strings

  // ---- Rule sets as they arrive in a request body ----

  datatype RawCondition =
    | RawCondition(field: JsonValue, operator: JsonValue, value: JsonValue, dataType: JsonValue)
    | NotACondition                                            // any non-object

  /** `conditions`: an array, or anything else (absent included). */
  datatype RawConditions = ConditionList(items: seq<RawCondition>) | NoConditionList

  /** `groups`: absent, an array, or anything else. */
  datatype RawGroups = GroupsAbsent | GroupList(items: seq<RawGroup>) | NoGroupList

  datatype RawGroup =
    | RawGroup(logicalOperator: JsonValue, conditions: RawConditions, groups: RawGroups)
    | NotAGroup                                                // any non-object

  // ---- The enum spellings ----

  function FieldName(f: Field): string {
    match f
    case TotalSpends => "totalSpends"
    case VisitCount => "visitCount"
    case LastActiveDate => "lastActiveDate"
    case Name => "name"
    case Email => "email"
  }

  function OperatorName(op: Operator): string {
    match op
    case Equals => "EQUALS"
    case NotEquals => "NOT_EQUALS"
    case GreaterThan => "GREATER_THAN"
    case LessThan => "LESS_THAN"
    case Contains => "CONTAINS"
    case StartsWith => "STARTS_WITH"
    case EndsWith => "ENDS_WITH"
    case OlderThanDays => "OLDER_THAN_DAYS"
    case InLastDays => "IN_LAST_DAYS"
  }

  function DataTypeName(d: DataType): string {
    match d
    case StringType => "string"
    case NumberType => "number"
    case DateType => "date"
  }

  function LogicalName(op: LogicalOperator): string {
    match op
    case And => "AND"
    case Or => "OR"
  }

  /** `z.enum([...])` for the five fields: exactly the five spellings. */
  function ParseField(j: JsonValue): (r: Option<Field>)
    ensures r.Some? ==> j == JsonValue.Str(FieldName(r.value))
  {
    match j
    case Str("totalSpends") => Some(TotalSpends)
    case Str("visitCount") => Some(VisitCount)
    case Str("lastActiveDate") => Some(LastActiveDate)
    case Str("name") => Some(Name)
    case Str("email") => Some(Email)
    case _ => None
  }

  function ParseOperator(j: JsonValue): (r: Option<Operator>)
    ensures r.Some? ==> j == JsonValue.Str(OperatorName(r.value))
  {
    match j
    case Str("EQUALS") => Some(Equals)
    case Str("NOT_EQUALS") => Some(NotEquals)
    case Str("GREATER_THAN") => Some(GreaterThan)
    case Str("LESS_THAN") => Some(LessThan)
    case Str("CONTAINS") => Some(Contains)
    case Str("STARTS_WITH") => Some(StartsWith)
    case Str("ENDS_WITH") => Some(EndsWith)
    case Str("OLDER_THAN_DAYS") => Some(OlderThanDays)
    case Str("IN_LAST_DAYS") => Some(InLastDays)
    case _ => None
  }

  /** Each field and each operator is accepted under its own spelling. */
  lemma EnumSpellingsParse(f: Field, op: Operator)
    ensures ParseField(JsonValue.Str(FieldName(f))) == Some(f)
    ensures ParseOperator(JsonValue.Str(OperatorName(op))) == Some(op)
  {
    match f
    case TotalSpends => case VisitCount => case LastActiveDate => case Name => case Email =>
    match op
    case Equals => case NotEquals => case GreaterThan => case LessThan =>
    case Contains => case StartsWith => case EndsWith => case OlderThanDays => case InLastDays =>
  }

  /** `dataType: z.enum(['string', 'number', 'date']).optional()`: absent is
      accepted as no data type; any other value must be one of the three. */
  function ParseDataType(j: JsonValue): (r: Option<Option<DataType>>)
    ensures j == Missing ==> r == Some(None)
    ensures r.Some? && r.value.Some? ==> j == JsonValue.Str(DataTypeName(r.value.value))
    ensures r.Some? && r.value.None? ==> j == Missing
  {
    match j
    case Missing => Some(None)
    case Str("string") => Some(Some(StringType))
    case Str("number") => Some(Some(NumberType))
    case Str("date") => Some(Some(DateType))
    case _ => None
  }

  function ParseLogical(j: JsonValue): (r: Option<LogicalOperator>)
    ensures r.Some? <==> j == JsonValue.Str("AND") || j == JsonValue.Str("OR")
    ensures r.Some? ==> j == JsonValue.Str(LogicalName(r.value))
  {
    match j
    case Str("AND") => Some(And)
    case Str("OR") => Some(Or)
    case _ => None
  }

  /** `value: z.union([z.string(), z.number(), z.date()])`. A JSON body holds
      no Date objects, so only strings and numbers get through. */
  function ParseRuleValue(j: JsonValue): (r: Option<RuleValue>)
    ensures r.Some? <==> j.Str? || j.Number?
    ensures r.Some? ==> !r.value.Date?
  {
    match j
    case Str(s) => Some(RuleValue.Str(s))
    case Number(n) => Some(Num(n))
    case _ => None
  }

  /** `ruleConditionSchema`. */
  function ValidateCondition(c: RawCondition): Option<RuleCondition> {
    match c
    case NotACondition => None
    case RawCondition(f, op, v, d) =>
      var field :- ParseField(f);
      var operator :- ParseOperator(op);
      var value :- ParseRuleValue(v);
      var dataType :- ParseDataType(d);
      Some(RuleCondition(field, operator, value, dataType))
  }

  function ValidateConditions(cs: seq<RawCondition>): (r: Option<seq<RuleCondition>>)
    ensures r.Some? <==> forall i :: 0 <= i < |cs| ==> ValidateCondition(cs[i]).Some?
    ensures r.Some? ==> |r.value| == |cs| && forall i :: 0 <= i < |cs| ==> ValidateCondition(cs[i]) == Some(r.value[i])
  {
    if forall i :: 0 <= i < |cs| ==> ValidateCondition(cs[i]).Some? then
      Some(seq(|cs|, i requires 0 <= i < |cs| => ValidateCondition(cs[i]).value))
    else None
  }

  /** The rule-set schema: `baseRuleGroupSchema` extended with an optional,
      recursively validated `groups` array. An absent `groups` is the empty
      list. */
  function ValidateGroup(g: RawGroup): Option<RuleGroup>
    decreases g
  {
    match g
    case NotAGroup => None
    case RawGroup(op, cs, gs) =>
      var logical :- ParseLogical(op);
      var conditions :- if cs.ConditionList? then ValidateConditions(cs.items) else None;
      var groups :- match gs
        case GroupsAbsent => Some([])
        case NoGroupList => None
        case GroupList(items) =>
          var parsed := seq(|items|, i requires 0 <= i < |items| => ValidateGroup(items[i]));
          if forall i :: 0 <= i < |parsed| ==> parsed[i].Some? then
            Some(seq(|parsed|, i requires 0 <= i < |parsed| => parsed[i].value))
          else None;
      Some(RuleGroup(logical, conditions, groups))
  }

  // ---- What a client sends for a rule tree ----

  function EncodeValue(v: RuleValue): JsonValue {
    match v
    case Str(s) => JsonValue.Str(s)
    case Num(n) => Number(n)
    case Date(_) => Composite
  }

  function EncodeCondition(c: RuleCondition): RawCondition {
    RawCondition(JsonValue.Str(FieldName(c.field)), JsonValue.Str(OperatorName(c.operator)), EncodeValue(c.value),
                 if c.dataType.Some? then JsonValue.Str(DataTypeName(c.dataType.value)) else Missing)
  }

  /** The JSON form of a rule tree. */
  function Encode(g: RuleGroup): RawGroup {
    RawGroup(JsonValue.Str(LogicalName(g.logicalOperator)),
             ConditionList(seq(|g.conditions|, i requires 0 <= i < |g.conditions| => EncodeCondition(g.conditions[i]))),
             GroupList(seq(|g.groups|, i requires 0 <= i < |g.groups| => Encode(g.groups[i]))))
  }

  /** A rule tree whose values are strings and numbers, the only values JSON
      can carry. */
  predicate JsonRules(g: RuleGroup) {
    && (forall i :: 0 <= i < |g.conditions| ==> !g.conditions[i].value.Date?)
    && (forall j :: 0 <= j < |g.groups| ==> JsonRules(g.groups[j]))
  }

  /** Validation gives back every tree a client can send. */
  lemma {:induction false} ValidateEncode(g: RuleGroup)
    requires JsonRules(g)
    ensures ValidateGroup(Encode(g)) == Some(g)
  {
    var e := Encode(g);
    forall i | 0 <= i < |g.conditions|
      ensures ValidateCondition(e.conditions.items[i]) == Some(g.conditions[i])
    {
      var c := g.conditions[i];
      assert e.conditions.items[i] == EncodeCondition(c);
      EnumSpellingsParse(c.field, c.operator);
      assert ParseRuleValue(EncodeValue(c.value)) == Some(c.value);
      if c.dataType.Some? {
        assert ParseDataType(JsonValue.Str(DataTypeName(c.dataType.value))) == Some(c.dataType) by {
          match c.dataType.value
          case StringType => case NumberType => case DateType =>
        }
      }
    }
    var pc := ValidateConditions(e.conditions.items);
    assert pc.Some? && |pc.value| == |g.conditions|;
    assert forall i :: 0 <= i < |g.conditions| ==> pc.value[i] == g.conditions[i];
    assert pc.value == g.conditions;
    var items := e.groups.items;
    forall j | 0 <= j < |g.groups|
      ensures ValidateGroup(items[j]) == Some(g.groups[j])
    {
      ValidateEncode(g.groups[j]);
    }
    var parsed := seq(|items|, i requires 0 <= i < |items| => ValidateGroup(items[i]));
    assert forall i :: 0 <= i < |parsed| ==> parsed[i].Some?;
    var values := seq(|parsed|, i requires 0 <= i < |parsed| => parsed[i].value);
    assert values == g.groups;
    assert ParseLogical(JsonValue.Str(LogicalName(g.logicalOperator))) == Some(g.logicalOperator) by {
      match g.logicalOperator
      case And => case Or =>
    }
  }

  /** Every validated tree is one a client can send, and sending it again
      validates to the same tree. */
  lemma {:induction false} ValidatedIsJson(r: RawGroup)
    requires ValidateGroup(r).Some?
    ensures JsonRules(ValidateGroup(r).value)
    ensures ValidateGroup(Encode(ValidateGroup(r).value)) == ValidateGroup(r)
  {
    var g := ValidateGroup(r).value;
    forall i | 0 <= i < |g.conditions|
      ensures !g.conditions[i].value.Date?
    {
      assert ValidateCondition(r.conditions.items[i]) == Some(g.conditions[i]);
    }
    if r.groups.GroupList? {
      var items := r.groups.items;
      forall j | 0 <= j < |g.groups|
        ensures JsonRules(g.groups[j])
      {
        assert ValidateGroup(items[j]) == Some(g.groups[j]);
        ValidatedIsJson(items[j]);
      }
    }
    ValidateEncode(g);
  }

  // ---- Sign-up and sign-in ----

  datatype SignUpBody = SignUpBody(fullName: JsonValue, email: JsonValue, password: JsonValue)
  datatype SignInBody = SignInBody(email: JsonValue, password: JsonValue)

  /** `signUpSchema`: a full name of at least 3 and a password of at least 8
      UTF-16 units, and an email zod accepts. */
  predicate ValidSignUp(b: SignUpBody, env: Env) {
    && b.fullName.Str? && Strings.JsLength(b.fullName.s) >= 3
    && b.email.Str? && env.isEmail(b.email.s)
    && b.password.Str? && Strings.JsLength(b.password.s) >= 8
  }

  /** `signInSchema`. */
  predicate ValidSignIn(b: SignInBody, env: Env) {
    && b.email.Str? && env.isEmail(b.email.s)
    && b.password.Str? && Strings.JsLength(b.password.s) >= 8
  }

  /** The credentials of a valid sign-up always pass sign-in validation. A
      password of fewer than 4 characters never passes either schema (each
      character is at most two UTF-16 units), nor does one of fewer than 8
      characters from the Basic Multilingual Plane. */
  lemma SignUpCredentialsSignIn(b: SignUpBody, env: Env)
    ensures ValidSignUp(b, env) ==> ValidSignIn(SignInBody(b.email, b.password), env)
    ensures b.password.Str? && |b.password.s| < 4 ==> !ValidSignUp(b, env) && !ValidSignIn(SignInBody(b.email, b.password), env)
    ensures b.password.Str? && |b.password.s| < 8 && (forall i :: 0 <= i < |b.password.s| ==> b.password.s[i] as int <= 0xFFFF) ==>
      !ValidSignUp(b, env) && !ValidSignIn(SignInBody(b.email, b.password), env)
  {
  }

  // ---- The customer and order schemas ----

  datatype CustomerBody = CustomerBody(name: JsonValue, email: JsonValue, totalSpends: JsonValue,
                                       visitCount: JsonValue, lastActiveDate: JsonValue)

  datatype CustomerInput = CustomerInput(name: string, email: string, totalSpends: int,
                                         visitCount: int, lastActiveDate: Option<int>)

  /** A non-negative number, or the default when the key is absent
      (`z.number().min(0).optional().default(0)`). */
  function ParseCount(j: JsonValue): (r: Option<int>)
    ensures r.Some? <==> j == Missing || (j.Number? && j.n >= 0)
    ensures r.Some? ==> r.value >= 0 && (j == Missing ==> r.value == 0) && (j.Number? ==> r.value == j.n)
  {
    match j
    case Missing => Some(0)
    case Number(n) => if n >= 0 then Some(n) else None
    case _ => None
  }

  /** `customerSchema`: the name must have a character before it is trimmed;
      the email must pass zod's check before it is trimmed and lower-cased. */
  function ParseCustomer(b: CustomerBody, env: Env): (r: Option<CustomerInput>)
    ensures r.Some? ==> r.value.totalSpends >= 0 && r.value.visitCount >= 0
    ensures r.Some? ==> b.totalSpends == Missing ==> r.value.totalSpends == 0
    ensures r.Some? ==> b.visitCount == Missing ==> r.value.visitCount == 0
    ensures r.Some? ==> b.name.Str? && r.value.name == Strings.Trim(b.name.s) && Strings.IsTrimmed(r.value.name)
    ensures r.Some? ==> b.email.Str? && env.isEmail(b.email.s) && r.value.email == Strings.Lower(Strings.Trim(b.email.s))
    ensures r.Some? <==>
      && b.name.Str? && Strings.JsLength(b.name.s) >= 1
      && b.email.Str? && env.isEmail(b.email.s)
      && ParseCount(b.totalSpends).Some? && ParseCount(b.visitCount).Some?
      && (b.lastActiveDate == Missing || (b.lastActiveDate.Str? && env.isoDateOf(b.lastActiveDate.s).Some?))
  {
    if !b.name.Str? || Strings.JsLength(b.name.s) < 1 then None
    else if !b.email.Str? || !env.isEmail(b.email.s) then None
    else
      var totalSpends :- ParseCount(b.totalSpends);
      var visitCount :- ParseCount(b.visitCount);
      var lastActive :- match b.lastActiveDate
        case Missing => Some(None)
        case Str(s) => if env.isoDateOf(s).Some? then Some(env.isoDateOf(s)) else None
        case _ => None;
      Strings.TrimIsTrimmed(b.name.s);
      Some(CustomerInput(Strings.Trim(b.name.s), Strings.Lower(Strings.Trim(b.email.s)),
                         totalSpends, visitCount, lastActive))
  }

  datatype OrderBody = OrderBody(orderId: JsonValue, customerId: JsonValue, orderAmount: JsonValue, orderDate: JsonValue)

  datatype OrderInput = OrderInput(orderId: string, customerId: nat, orderAmount: int, orderDate: int)

  /** `orderSchema`: the order id must have a character before it is
      trimmed, the customer id must be a valid ObjectId, the amount at
      least 0 and the date an ISO 8601 date-time with offset. */
  function ParseOrder(b: OrderBody, env: Env): (r: Option<OrderInput>)
    ensures r.Some? <==>
      && b.orderId.Str? && Strings.JsLength(b.orderId.s) >= 1
      && b.customerId.Str? && env.objectIdOf(b.customerId.s).Some?
      && b.orderAmount.Number? && b.orderAmount.n >= 0
      && b.orderDate.Str? && env.isoDateOf(b.orderDate.s).Some?
    ensures r.Some? ==> r.value == OrderInput(Strings.Trim(b.orderId.s), env.objectIdOf(b.customerId.s).value,
                                              b.orderAmount.n, env.isoDateOf(b.orderDate.s).value)
    ensures r.Some? ==> r.value.orderAmount >= 0 && Strings.IsTrimmed(r.value.orderId)
  {
    Strings.TrimIsTrimmed(if b.orderId.Str? then b.orderId.s else "");
    if !b.orderId.Str? || Strings.JsLength(b.orderId.s) < 1 then None
    else if !b.customerId.Str? || env.objectIdOf(b.customerId.s).None? then None
    else if !b.orderAmount.Number? || b.orderAmount.n < 0 then None
    else if !b.orderDate.Str? || env.isoDateOf(b.orderDate.s).None? then None
    else Some(OrderInput(Strings.Trim(b.orderId.s), env.objectIdOf(b.customerId.s).value,
                         b.orderAmount.n, env.isoDateOf(b.orderDate.s).value))
  }

  /** Because the length check runs before the trim, a blank order id passes
      the schema and comes out empty. */
  lemma BlankOrderIdPasses(cid: string, date: string, env: Env)
    requires env.objectIdOf(cid).Some? && env.isoDateOf(date).Some?
    ensures var r := ParseOrder(OrderBody(JsonValue.Str(" "), JsonValue.Str(cid), Number(1), JsonValue.Str(date)), env);
      r.Some? && r.value.orderId == ""
  {
    assert Strings.JsLength(" ") == 1;
    assert Strings.Trim(" ") == "";
  }
}
