/** The single-order route `POST /api/orders`: validate the body, refuse a
    duplicate order id and an unknown customer, save the order, then add the
    order to the customer's aggregates (total spent, visits, last active). */
module OrdersRoute {
  import opened Wrappers
  import opened Runtime
  import opened Records
  import opened Validations
  import opened Db
  import opened CampaignModel
  import opened Filters
  import opened QueryBuilder
  import Strings
  import QueryBuilderFacts

  /** The customer after the order: spends plus the amount, one more visit,
      active now. */
  function AfterOrder(c: Customer, amount: int, now: int): Customer {
    c.(totalSpends := c.totalSpends + amount, visitCount := c.visitCount + 1, lastActiveDate := Some(now))
  }

  /** The outcome of one request: the new store and the response status. */
  function PostOrderSpec(s: State, session: bool, body: OrderBody, env: Env): (State, int) {
    if !session then (s, 401)
    else match ParseOrder(body, env)
      case None => (s, 400)
      case Some(input) => PlaceOrder(s, input, env.now)
  }

  /** The route after validation: the duplicate check, the customer lookup,
      saving the order, then saving the updated customer. */
  function PlaceOrder(s: State, input: OrderInput, now: int): (State, int) {
    if HasOrderId(s.orders, input.orderId) then (s, 409)
    else match CustomerWithId(s.customers, input.customerId)
      case None => (s, 404)
      case Some(k) =>
        match SaveOrder(input.orderId, input.customerId, input.orderAmount, input.orderDate)
        case None => (s, 500)
        case Some(o) =>
          var c := AfterOrder(s.customers[k], input.orderAmount, now);
          if ValidCustomer(c) then (State(s.customers[k := c], s.orders + [o], s.campaigns, s.logs, s.outbox, s.nextId), 201)
          else (State(s.customers, s.orders + [o], s.campaigns, s.logs, s.outbox, s.nextId), 500)
  }

  /** `POST /api/orders`. */
  method PostOrder(store: Store, session: bool, body: OrderBody, env: Env) returns (status: int)
    modifies store
    ensures (store.Snapshot(), status) == PostOrderSpec(old(store.Snapshot()), session, body, env)
  {
    if !session {
      return 401;
    }
    var validation := ParseOrder(body, env);
    if validation.None? {
      return 400;
    }
    status := Place(store, validation.value, env.now);
  }

  /** The part of the route after the body has been validated. */
  method Place(store: Store, input: OrderInput, now: int) returns (status: int)
    modifies store
    ensures (store.Snapshot(), status) == PlaceOrder(old(store.Snapshot()), input, now)
  {
    if HasOrderId(store.orders, input.orderId) {
      return 409;
    }
    var found := CustomerWithId(store.customers, input.customerId);
    if found.None? {
      return 404;
    }
    var k := found.value;
    var newOrder := SaveOrder(input.orderId, input.customerId, input.orderAmount, input.orderDate);
    if newOrder.None? {
      return 500;
    }
    store.orders := store.orders + [newOrder.value];
    status := UpdateCustomer(store, k, input.orderAmount, now);
  }

  /** Adding the order to the customer's aggregates and saving the customer,
      which the Customer schema may refuse. */
  method UpdateCustomer(store: Store, k: nat, amount: int, now: int) returns (status: int)
    requires k < |store.customers|
    modifies store
    ensures var c := AfterOrder(old(store.customers[k]), amount, now);
      && status == (if ValidCustomer(c) then 201 else 500)
      && store.customers == (if ValidCustomer(c) then old(store.customers)[k := c] else old(store.customers))
    ensures store.orders == old(store.orders) && store.campaigns == old(store.campaigns)
    ensures store.logs == old(store.logs) && store.outbox == old(store.outbox) && store.nextId == old(store.nextId)
  {
    var customer := store.customers[k];
    customer := customer.(totalSpends := customer.totalSpends + amount);
    customer := customer.(visitCount := customer.visitCount + 1);
    customer := customer.(lastActiveDate := Some(now));
    if !ValidCustomer(customer) {
      return 500;
    }
    store.customers := store.customers[k := customer];
    return 201;
  }

  // ---- Properties of the route ----

  /** Every rejection leaves the store as it was: no session (401), a body
      the schema refuses (400), an order id already stored (409), an unknown
      customer (404), and an order the Order schema refuses on save (500). */
  lemma RejectionsChangeNothing(s: State, session: bool, body: OrderBody, env: Env)
    requires ValidState(s)
    ensures var (s', status) := PostOrderSpec(s, session, body, env);
      && (status == 201 || s' == s)
      && (status == 401 <==> !session)
      && (status == 400 <==> session && ParseOrder(body, env).None?)
      && (status == 409 <==> session && ParseOrder(body, env).Some? && HasOrderId(s.orders, ParseOrder(body, env).value.orderId))
      && (status == 404 <==> session && ParseOrder(body, env).Some? && !HasOrderId(s.orders, ParseOrder(body, env).value.orderId)
                             && CustomerWithId(s.customers, ParseOrder(body, env).value.customerId).None?)
      && status in {201, 400, 401, 404, 409, 500}
  {
    if session && ParseOrder(body, env).Some? {
      var input := ParseOrder(body, env).value;
      var found := CustomerWithId(s.customers, input.customerId);
      if found.Some? {
        AfterOrderValid(s, found.value, input.orderAmount, env.now);
      }
    }
  }

  /** On success exactly one order is added, for that customer, and only that
      customer changes: its spends grow by exactly the amount, its visits by
      exactly one, and it is last active now. */
  lemma SuccessUpdatesAggregates(s: State, input: OrderInput, now: int)
    requires Strings.IsTrimmed(input.orderId) && PlaceOrder(s, input, now).1 == 201
    ensures var s' := PlaceOrder(s, input, now).0;
            var k := CustomerWithId(s.customers, input.customerId);
      && k.Some?
      && s'.orders == s.orders + [Order(input.orderId, input.customerId, input.orderAmount, input.orderDate)]
      && |s'.customers| == |s.customers|
      && s'.customers[k.value].totalSpends == s.customers[k.value].totalSpends + input.orderAmount
      && s'.customers[k.value].visitCount == s.customers[k.value].visitCount + 1
      && s'.customers[k.value].lastActiveDate == Some(now)
      && s'.customers[k.value].id == s.customers[k.value].id
      && s'.customers[k.value].name == s.customers[k.value].name
      && s'.customers[k.value].email == s.customers[k.value].email
      && (forall i :: 0 <= i < |s.customers| && i != k.value ==> s'.customers[i] == s.customers[i])
      && s'.campaigns == s.campaigns && s'.logs == s.logs && s'.outbox == s.outbox && s'.nextId == s.nextId
  {
    var k := CustomerWithId(s.customers, input.customerId).value;
    var o := SaveOrder(input.orderId, input.customerId, input.orderAmount, input.orderDate).value;
    var c := AfterOrder(s.customers[k], input.orderAmount, now);
    Strings.TrimmedIsFixed(input.orderId);
    assert PlaceOrder(s, input, now).0 == State(s.customers[k := c], s.orders + [o], s.campaigns, s.logs, s.outbox, s.nextId);
  }

  /** The route keeps the store valid. */
  lemma PreservesValid(s: State, session: bool, body: OrderBody, env: Env)
    requires ValidState(s)
    ensures ValidState(PostOrderSpec(s, session, body, env).0)
  {
    if session && ParseOrder(body, env).Some? {
      PlacePreservesValid(s, ParseOrder(body, env).value, env.now);
    }
  }

  lemma PlacePreservesValid(s: State, input: OrderInput, now: int)
    requires ValidState(s) && Strings.IsTrimmed(input.orderId)
    ensures ValidState(PlaceOrder(s, input, now).0)
  {
    var found := CustomerWithId(s.customers, input.customerId);
    var saved := SaveOrder(input.orderId, input.customerId, input.orderAmount, input.orderDate);
    if !HasOrderId(s.orders, input.orderId) && found.Some? && saved.Some? {
      PlaceChangesValid(s, input, now, found.value, saved.value);
    }
  }

  lemma PlaceChangesValid(s: State, input: OrderInput, now: int, k: nat, o: Order)
    requires ValidState(s) && Strings.IsTrimmed(input.orderId)
    requires !HasOrderId(s.orders, input.orderId) && CustomerWithId(s.customers, input.customerId) == Some(k)
    requires SaveOrder(input.orderId, input.customerId, input.orderAmount, input.orderDate) == Some(o)
    ensures ValidState(PlaceOrder(s, input, now).0)
  {
    var c := AfterOrder(s.customers[k], input.orderAmount, now);
    Strings.TrimmedIsFixed(input.orderId);
    AfterOrderValid(s, k, input.orderAmount, now);
    PlacedStoreValid(s, k, c, o);
    assert PlaceOrder(s, input, now).0 == State(s.customers[k := c], s.orders + [o], s.campaigns, s.logs, s.outbox, s.nextId);
  }

  /** Adding a non-negative amount to a stored customer keeps it valid, so
      the route never fails after the order has been saved. */
  lemma AfterOrderValid(s: State, k: nat, amount: int, now: int)
    requires ValidState(s) && k < |s.customers| && amount >= 0
    ensures ValidCustomer(AfterOrder(s.customers[k], amount, now))
  {
  }

  /** Appending a valid order with a new id and replacing customer k by a
      valid customer with the same id and email keeps the store valid. */
  lemma PlacedStoreValid(s: State, k: nat, c: Customer, o: Order)
    requires ValidState(s) && k < |s.customers|
    requires ValidCustomer(c) && c.id == s.customers[k].id && c.email == s.customers[k].email
    requires ValidOrder(o) && !HasOrderId(s.orders, o.orderId)
    ensures ValidState(State(s.customers[k := c], s.orders + [o], s.campaigns, s.logs, s.outbox, s.nextId))
  {
    AppendKeepsOrdersValid(s.orders, o);
    CustomerUpdateKeepsValid(s, k, s.customers[k := c]);
  }

  /** Appending a valid order whose id is new keeps the orders valid and
      their ids distinct. */
  lemma AppendKeepsOrdersValid(os: seq<Order>, o: Order)
    requires forall i :: 0 <= i < |os| ==> ValidOrder(os[i])
    requires forall i, j :: 0 <= i < j < |os| ==> os[i].orderId != os[j].orderId
    requires ValidOrder(o) && !HasOrderId(os, o.orderId)
    ensures forall i :: 0 <= i < |os + [o]| ==> ValidOrder((os + [o])[i])
    ensures forall i, j :: 0 <= i < j < |os + [o]| ==> (os + [o])[i].orderId != (os + [o])[j].orderId
  {
    forall i, j | 0 <= i < j < |os + [o]|
      ensures (os + [o])[i].orderId != (os + [o])[j].orderId
    {
      if j == |os| {
        assert (os + [o])[i] == os[i];
      }
    }
  }

  /** Replacing customer k by a valid customer with the same id and email
      keeps the customers valid. */
  lemma CustomerUpdateKeepsValid(s: State, k: nat, cs: seq<Customer>)
    requires ValidState(s) && k < |s.customers| && |cs| == |s.customers|
    requires ValidCustomer(cs[k]) && cs[k].id == s.customers[k].id && cs[k].email == s.customers[k].email
    requires forall i :: 0 <= i < |cs| && i != k ==> cs[i] == s.customers[i]
    ensures forall i :: 0 <= i < |cs| ==> ValidCustomer(cs[i]) && cs[i].id < s.nextId
    ensures forall i, j :: 0 <= i < j < |cs| ==> cs[i].id != cs[j].id && cs[i].email != cs[j].email
  {
  }

  /** After a successful order its customer satisfies every rule
      "lastActiveDate IN_LAST_DAYS d" with d >= 0, and no rule
      "lastActiveDate OLDER_THAN_DAYS d" with d >= 0. */
  lemma OrderMakesCustomerRecent(s: State, input: OrderInput, env: Env, days: int, mode: TextPatterns)
    requires Strings.IsTrimmed(input.orderId) && PlaceOrder(s, input, env.now).1 == 201 && days >= 0
    ensures var s' := PlaceOrder(s, input, env.now).0;
            var k := CustomerWithId(s.customers, input.customerId).value;
            var recent := ParseCondition(RuleCondition(LastActiveDate, InLastDays, Num(days), None), env, mode);
            var older := ParseCondition(RuleCondition(LastActiveDate, OlderThanDays, Num(days), None), env, mode);
      && recent.Ok? && Matches(recent.value, s'.customers[k])
      && older.Ok? && !Matches(older.value, s'.customers[k])
  {
    SuccessUpdatesAggregates(s, input, env.now);
    var k := CustomerWithId(s.customers, input.customerId).value;
    ActiveNowIsRecent(PlaceOrder(s, input, env.now).0.customers[k], env, days, mode);
  }

  /** A customer last active now is within every day window of d >= 0
      days and older than none. */
  lemma ActiveNowIsRecent(c: Customer, env: Env, days: int, mode: TextPatterns)
    requires c.lastActiveDate == Some(env.now) && days >= 0
    ensures var recent := ParseCondition(RuleCondition(LastActiveDate, InLastDays, Num(days), None), env, mode);
            var older := ParseCondition(RuleCondition(LastActiveDate, OlderThanDays, Num(days), None), env, mode);
      && recent.Ok? && Matches(recent.value, c)
      && older.Ok? && !Matches(older.value, c)
  {
    QueryBuilderFacts.DayWindowFilters(Num(days), env, mode, None);
    assert days * MsPerDay >= 0;
  }
}
