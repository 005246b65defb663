/** The store-side filter language the rule compiler targets (a subset of
    MongoDB query documents) and how the customer store evaluates it.
    `{}` matches every document; `{ f: { $op: v } }` compares one field;
    `{ $and: [...] }` and `{ $or: [...] }` combine filters. */
module Filters {
  import opened Wrappers
  import opened CampaignModel
  import opened Records
  import Strings

  datatype CompareOp = Eq | Ne | Gt | Lt | Gte

  datatype Filter =
    | MatchAll                                              // {}
    | Compare(field: Field, op: CompareOp, value: RuleValue) // { field: { $eq|$ne|$gt|$lt|$gte: value } }
    | CompareNull(field: Field, op: CompareOp)              // { field: { $op: null } }
    | Regex(field: Field, pattern: string, ignoreCase: bool) // { field: { $regex: pattern[, $options: 'i'] } }
    | AllOf(children: seq<Filter>)                          // { $and: children }
    | AnyOf(children: seq<Filter>)                          // { $or: children }

  /** `Object.keys(filter).length === 0`: only `{}` has no keys. */
  predicate IsEmptyFilter(f: Filter) {
    f.MatchAll?
  }

  /** `name` and `email` are `String` paths of the customer schema; the
      others are `Number` or `Date` paths. */
  predicate IsStringField(f: Field) {
    f == Name || f == Email
  }

  predicate IsDateField(f: Field) {
    f == LastActiveDate
  }

  /** A customer's field as stored: numbers, strings, a date, or nothing. */
  datatype FieldValue = NumberField(n: int) | StringField(s: string) | DateField(t: int) | Absent

  function FieldOf(c: Customer, f: Field): FieldValue {
    match f
    case TotalSpends => NumberField(c.totalSpends)
    case VisitCount => NumberField(c.visitCount)
    case LastActiveDate => if c.lastActiveDate.Some? then DateField(c.lastActiveDate.value) else Absent
    case Name => StringField(c.name)
    case Email => StringField(c.email)
  }

  predicate IntCompare(a: int, op: CompareOp, b: int) {
    match op
    case Eq => a == b
    case Ne => a != b
    case Gt => a > b
    case Lt => a < b
    case Gte => a >= b
  }

  /** Lexicographic order on strings by character code. */
  predicate StrLess(a: string, b: string) {
    if a == [] then b != []
    else if b == [] then false
    else if a[0] != b[0] then a[0] < b[0]
    else StrLess(a[1..], b[1..])
  }

  predicate StrCompare(a: string, op: CompareOp, b: string) {
    match op
    case Eq => a == b
    case Ne => a != b
    case Gt => StrLess(b, a)
    case Lt => StrLess(a, b)
    case Gte => !StrLess(a, b)
  }

  /** A comparison with `null`: `$eq` and `$gte` hold for a missing field,
      `$ne` for a present one, and `$gt` and `$lt` for none. */
  predicate NullCompareHolds(v: FieldValue, op: CompareOp) {
    if op == Eq || op == Gte then v.Absent? else op == Ne && !v.Absent?
  }

  /** A comparison holds only within one type bracket; a value of another
      type, or a missing field, satisfies `$ne` and nothing else. */
  predicate CompareHolds(v: FieldValue, op: CompareOp, q: RuleValue) {
    match (v, q)
    case (NumberField(a), Num(b)) => IntCompare(a, op, b)
    case (DateField(a), Date(b)) => IntCompare(a, op, b)
    case (StringField(a), Str(b)) => StrCompare(a, op, b)
    case _ => op == Ne
  }

  /** Character equality, folding ASCII case when `ci` holds. */
  predicate CharMatches(p: char, t: char, ci: bool) {
    if ci then Strings.LowerChar(p) == Strings.LowerChar(t) else p == t
  }

  /** Does `pat` match `text` starting at position `i`? `^` asserts the start
      of the text, `$` its end; every other character matches itself. This is
      the regular-expression meaning of every pattern whose only
      metacharacters are `^` and `$`. */
  predicate MatchHere(pat: string, text: string, i: nat, ci: bool)
    requires i <= |text|
    decreases |pat|
  {
    if pat == [] then true
    else if pat[0] == '^' then i == 0 && MatchHere(pat[1..], text, i, ci)
    else if pat[0] == '$' then i == |text| && MatchHere(pat[1..], text, i, ci)
    else i < |text| && CharMatches(pat[0], text[i], ci) && MatchHere(pat[1..], text, i + 1, ci)
  }

  /** A regular-expression search: a match starting anywhere in the text. */
  predicate RegexSearch(pat: string, text: string, ci: bool) {
    exists i :: 0 <= i <= |text| && MatchHere(pat, text, i, ci)
  }

  /** Characters that have a meaning of their own in a regular expression. */
  predicate IsRegexMeta(c: char) {
    c in ".*+?()[]{}|\\^$"
  }

  predicate MetaFree(s: string) {
    forall i :: 0 <= i < |s| ==> !IsRegexMeta(s[i])
  }

  /** The store's evaluation of a filter on one customer. */
  predicate Matches(f: Filter, c: Customer) {
    match f
    case MatchAll => true
    case Compare(field, op, v) => CompareHolds(FieldOf(c, field), op, v)
    case CompareNull(field, op) => NullCompareHolds(FieldOf(c, field), op)
    case Regex(field, p, ci) => FieldOf(c, field).StringField? && RegexSearch(p, FieldOf(c, field).s, ci)
    case AllOf(fs) => forall i :: 0 <= i < |fs| ==> Matches(fs[i], c)
    case AnyOf(fs) => exists i :: 0 <= i < |fs| && Matches(fs[i], c)
  }

  /** `find(filter)`: the customers that match, in store order. */
  function Select(f: Filter, cs: seq<Customer>): (r: seq<Customer>)
    ensures |r| <= |cs|
    ensures forall x :: x in r ==> x in cs && Matches(f, x)
    ensures forall i :: 0 <= i < |cs| && Matches(f, cs[i]) ==> cs[i] in r
  {
    if cs == [] then []
    else if Matches(f, cs[0]) then [cs[0]] + Select(f, cs[1..])
    else Select(f, cs[1..])
  }

  /** `countDocuments(filter)`. */
  function CountMatching(f: Filter, cs: seq<Customer>): nat {
    |Select(f, cs)|
  }

  /** The empty filter selects the whole store, in order. */
  lemma {:induction false} SelectAll(cs: seq<Customer>)
    ensures Select(MatchAll, cs) == cs
  {
    if cs != [] {
      SelectAll(cs[1..]);
    }
  }
}
