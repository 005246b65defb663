/** The customer and order documents the rule engine reads and the ingestion
    routes write, with their schema setters, defaults and bounds. */
module Records {
  import opened Wrappers
  import Strings

  /** A customer. `id` is its store id; amounts are integral; dates are ms. */
  datatype Customer = Customer(
    id: nat,
    name: string,
    email: string,
    totalSpends: int,
    visitCount: int,
    lastActiveDate: Option<int>)

  /** The Customer schema's `match` for emails, `^[^\s@]+@[^\s@]+\.[^\s@]+$`:
      no whitespace, exactly one `@` with something before it, and after it
      a `.` that is neither first nor last. `EmailPatternMeaning` states the
      same with quantifiers. */
  predicate EmailPatternOk(e: string) {
    && NoWhitespace(e) && AtCount(e) == 1
    && var k := AtIndex(e);
       0 < k < |e| && InnerDot(e[k + 1..])
  }

  predicate NoWhitespace(e: string) {
    e == [] || (!Strings.IsJsWhitespace(e[0]) && NoWhitespace(e[1..]))
  }

  function AtCount(e: string): nat {
    if e == [] then 0 else (if e[0] == '@' then 1 else 0) + AtCount(e[1..])
  }

  /** The index of the first `@`, or the length when there is none. */
  function AtIndex(e: string): (k: nat)
    ensures k <= |e| && (k < |e| ==> e[k] == '@') && forall i :: 0 <= i < k ==> e[i] != '@'
  {
    if e == [] || e[0] == '@' then 0 else 1 + AtIndex(e[1..])
  }

  /** A `.` somewhere other than at the first or last position. */
  predicate InnerDot(d: string) {
    |d| >= 3 && HasDot(d[1..|d| - 1])
  }

  predicate HasDot(d: string) {
    d != [] && (d[0] == '.' || HasDot(d[1..]))
  }

  /** The same shape stated with quantifiers: no whitespace anywhere, one
      `@` at a position other than the first, and a `.` after it that is
      neither the character right after the `@` nor the last one. */
  predicate EmailShape(e: string) {
    && (forall i :: 0 <= i < |e| ==> !Strings.IsJsWhitespace(e[i]))
    && exists k :: 0 < k < |e| && e[k] == '@'
         && (forall i :: 0 <= i < |e| && i != k ==> e[i] != '@')
         && (exists d :: k + 1 < d < |e| - 1 && e[d] == '.')
  }

  lemma EmailPatternMeaning(e: string)
    ensures EmailPatternOk(e) <==> EmailShape(e)
  {
    NoWhitespaceMeaning(e);
    OneAt(e);
    var k := AtIndex(e);
    if k < |e| {
      var d := e[k + 1..];
      if |d| >= 3 {
        var inner := d[1..|d| - 1];
        HasDotMeaning(inner);
        assert forall p :: 0 <= p < |inner| ==> inner[p] == e[k + 2 + p];
      }
    }
    if EmailShape(e) {
      var k' :| 0 < k' < |e| && e[k'] == '@'
         && (forall i :: 0 <= i < |e| && i != k' ==> e[i] != '@')
         && (exists d :: k' + 1 < d < |e| - 1 && e[d] == '.');
      assert k' == k;
      var dot :| k + 1 < dot < |e| - 1 && e[dot] == '.';
      assert e[k + 1..][1..|e| - k - 2][dot - k - 2] == '.';
    }
  }

  lemma {:induction false} NoWhitespaceMeaning(e: string)
    ensures NoWhitespace(e) <==> forall i :: 0 <= i < |e| ==> !Strings.IsJsWhitespace(e[i])
  {
    if e != [] {
      NoWhitespaceMeaning(e[1..]);
      assert forall i :: 1 <= i < |e| ==> e[i] == e[1..][i - 1];
    }
  }

  lemma {:induction false} HasDotMeaning(d: string)
    ensures HasDot(d) <==> exists i :: 0 <= i < |d| && d[i] == '.'
  {
    if d != [] {
      HasDotMeaning(d[1..]);
      if d[0] != '.' && exists i :: 0 <= i < |d| && d[i] == '.' {
        var i :| 0 <= i < |d| && d[i] == '.';
        assert d[1..][i - 1] == '.';
      }
    }
  }

  lemma {:induction false} NoAtMeaning(e: string)
    ensures AtCount(e) == 0 <==> forall i :: 0 <= i < |e| ==> e[i] != '@'
  {
    if e != [] {
      NoAtMeaning(e[1..]);
      assert forall i :: 1 <= i < |e| ==> e[i] == e[1..][i - 1];
    }
  }

  /** Exactly one `@`: the first one, with none after it. */
  lemma {:induction false} OneAt(e: string)
    ensures AtCount(e) == 1 <==> AtIndex(e) < |e| && forall i :: AtIndex(e) < i < |e| ==> e[i] != '@'
  {
    if e != [] {
      assert forall i :: 1 <= i < |e| ==> e[i] == e[1..][i - 1];
      if e[0] == '@' {
        NoAtMeaning(e[1..]);
      } else {
        OneAt(e[1..]);
      }
    }
  }

  /** What the Customer schema accepts: a non-empty trimmed name, a trimmed
      lower-case email of the required shape, and non-negative totals. */
  predicate ValidCustomer(c: Customer) {
    && c.name != "" && Strings.IsTrimmed(c.name)
    && EmailPatternOk(c.email) && Strings.IsTrimmed(c.email) && Strings.Lower(c.email) == c.email
    && c.totalSpends >= 0 && c.visitCount >= 0
  }

  datatype Order = Order(orderId: string, customerId: nat, orderAmount: int, orderDate: int)

  /** What the Order schema accepts: a non-empty trimmed id and an amount of
      at least 0. */
  predicate ValidOrder(o: Order) {
    o.orderId != "" && Strings.IsTrimmed(o.orderId) && o.orderAmount >= 0
  }

  /** Building and saving a customer document: the `trim`/`lowercase` setters,
      the 0 defaults, then validation (None is the error `save()` throws). */
  function SaveCustomer(id: nat, name: string, email: string, totalSpends: Option<int>,
                        visitCount: Option<int>, lastActiveDate: Option<int>): (r: Option<Customer>)
    ensures r.Some? <==> Strings.Trim(name) != "" && EmailPatternOk(Strings.Lower(Strings.Trim(email)))
                         && totalSpends.GetOr(0) >= 0 && visitCount.GetOr(0) >= 0
    ensures r.Some? ==> ValidCustomer(r.value) && r.value.id == id
    ensures r.Some? ==> r.value.name == Strings.Trim(name) && r.value.email == Strings.Lower(Strings.Trim(email))
    ensures r.Some? ==> r.value.totalSpends == totalSpends.GetOr(0) && r.value.visitCount == visitCount.GetOr(0)
    ensures r.Some? ==> r.value.lastActiveDate == lastActiveDate
  {
    var n := Strings.Trim(name);
    var e := Strings.Lower(Strings.Trim(email));
    var c := Customer(id, n, e, totalSpends.GetOr(0), visitCount.GetOr(0), lastActiveDate);
    NormalisedEmail(email);
    Strings.TrimIsTrimmed(name);
    if n != "" && EmailPatternOk(e) && totalSpends.GetOr(0) >= 0 && visitCount.GetOr(0) >= 0 then Some(c) else None
  }

  /** The stored email, `email.trim().toLowerCase()`, is trimmed and lower-case. */
  lemma NormalisedEmail(email: string)
    ensures Strings.IsTrimmed(Strings.Lower(Strings.Trim(email)))
    ensures Strings.Lower(Strings.Lower(Strings.Trim(email))) == Strings.Lower(Strings.Trim(email))
  {
    Strings.TrimIdempotent(email);
    LowerKeepsTrim(Strings.Trim(email));
    Strings.LowerIdempotent(Strings.Trim(email));
  }

  /** Building and saving an order document. */
  function SaveOrder(orderId: string, customerId: nat, orderAmount: int, orderDate: int): (r: Option<Order>)
    ensures r.Some? <==> Strings.Trim(orderId) != "" && orderAmount >= 0
    ensures r.Some? ==> ValidOrder(r.value)
    ensures r.Some? ==> r.value == Order(Strings.Trim(orderId), customerId, orderAmount, orderDate)
  {
    var o := Order(Strings.Trim(orderId), customerId, orderAmount, orderDate);
    Strings.TrimIsTrimmed(orderId);
    if ValidOrder(o) then Some(o) else None
  }

  /** Lower-casing a trimmed string keeps it trimmed (only letters change). */
  lemma LowerKeepsTrim(s: string)
    ensures |Strings.Lower(s)| == |s|
    ensures (Strings.Trim(s) == s) ==> Strings.IsTrimmed(Strings.Lower(s))
  {
    Strings.TrimIsTrimmed(s);
    var l := Strings.Lower(s);
    if l != [] {
      LowerCharKeepsSpace(s[0]);
      LowerCharKeepsSpace(s[|s| - 1]);
    }
  }

  /** Lower-casing a character does not make it whitespace. */
  lemma LowerCharKeepsSpace(c: char)
    ensures Strings.IsJsWhitespace(Strings.LowerChar(c)) == Strings.IsJsWhitespace(c)
  {
  }
}
