/** `POST /api/orders/bulk-upload`: each row of the uploaded CSV is
    validated, skipped when an order with its id exists or no customer has
    its email, and otherwise saved for that customer; the response counts
    the successes and failures and lists an error entry per failed row and
    a summary per created order. Unlike the single-order route, the
    customer's aggregates are not touched. */
module OrderBulkUpload {
  import opened Wrappers
  import opened Runtime
  import opened Records
  import opened Db
  import opened CsvUpload
  import Strings
  import OrdersRoute

  /** A parsed CSV row, keyed by the header. */
  datatype OrderRow = OrderRow(
    orderId: Option<string>,
    customerEmail: Option<string>,
    orderAmount: Option<string>,
    orderDate: Option<string>)

  /** A row that passed `csvOrderSchema`. */
  datatype RowInput = RowInput(orderId: string, customerEmail: string, orderAmount: int, orderDate: int)

  datatype Problem = ValidationFailed | AlreadyExists | CustomerNotFound | DatabaseError | CsvParsingError

  /** An entry of `errors`: the row number, the order id reported, and why. */
  datatype RowError = RowError(row: int, orderId: Option<string>, problem: Problem)

  /** An entry of `createdOrders`. */
  datatype CreatedOrder = CreatedOrder(orderId: string, customerEmail: string, orderAmount: int, orderDate: int)

  datatype UploadResult = UploadResult(
    successfulUploads: nat,
    failedUploads: nat,
    errors: seq<RowError>,
    createdOrders: seq<CreatedOrder>)

  const NoRowsYet := UploadResult(0, 0, [], [])

  datatype Response = Response(status: int, result: Option<UploadResult>)

  /** The amount cell: a blank cell is `undefined`, which `z.number()`
      refuses; any other is `Number(val)`, which must be at least 0. */
  function AmountCell(v: Option<string>, env: Env): (r: Option<int>)
    ensures r.Some? <==> !Blank(v) && env.numberOf(v.value).Some? && env.numberOf(v.value).value >= 0
    ensures r.Some? ==> r == env.numberOf(v.value)
  {
    if Blank(v) then None
    else match env.numberOf(v.value)
      case None => None
      case Some(n) => if n >= 0 then Some(n) else None
  }

  /** The date cell: a blank cell is `undefined`, which `z.string()`
      refuses; any other must be an ISO 8601 date-time with offset. */
  function OrderDateCell(v: Option<string>, env: Env): (r: Option<int>)
    ensures r.Some? <==> !Blank(v) && env.isoDateOf(v.value).Some?
    ensures r.Some? ==> r == env.isoDateOf(v.value)
  {
    if Blank(v) then None else env.isoDateOf(v.value)
  }

  /** `csvOrderSchema.safeParse(row)`: an order id with a character before
      it is trimmed, an email zod accepts before it is trimmed and
      lower-cased, a required amount of at least 0 and a required ISO 8601
      date. */
  function ParseRow(row: OrderRow, env: Env): (r: Option<RowInput>)
    ensures r.Some? <==>
      && row.orderId.Some? && Strings.JsLength(row.orderId.value) >= 1
      && row.customerEmail.Some? && env.isEmail(row.customerEmail.value)
      && AmountCell(row.orderAmount, env).Some? && OrderDateCell(row.orderDate, env).Some?
    ensures r.Some? ==> r.value.orderId == Strings.Trim(row.orderId.value)
    ensures r.Some? ==> r.value.customerEmail == Strings.Lower(Strings.Trim(row.customerEmail.value))
    ensures r.Some? ==> Some(r.value.orderAmount) == env.numberOf(row.orderAmount.value)
    ensures r.Some? ==> Some(r.value.orderDate) == env.isoDateOf(row.orderDate.value)
  {
    if row.orderId.None? || Strings.JsLength(row.orderId.value) < 1 then None
    else if row.customerEmail.None? || !env.isEmail(row.customerEmail.value) then None
    else
      var amount :- AmountCell(row.orderAmount, env);
      var date :- OrderDateCell(row.orderDate, env);
      Some(RowInput(Strings.Trim(row.orderId.value), Strings.Lower(Strings.Trim(row.customerEmail.value)), amount, date))
  }

  function Fail(r: UploadResult, e: RowError): UploadResult {
    r.(failedUploads := r.failedUploads + 1, errors := r.errors + [e])
  }

  function Succeed(r: UploadResult, o: Order, email: string): UploadResult {
    r.(successfulUploads := r.successfulUploads + 1,
       createdOrders := r.createdOrders + [CreatedOrder(o.orderId, email, o.orderAmount, o.orderDate)])
  }

  /** What the loop decides for the row at index `i`: skip it with an error
      entry, or save an order for the customer found by email. */
  datatype RowOutcome = Skipped(error: RowError) | Created(order: Order, customerEmail: string)

  function Outcome(s: State, row: OrderRow, i: nat, env: Env): RowOutcome {
    match ParseRow(row, env)
    case None => Skipped(RowError(RowNumber(i), Some(CellOrNA(row.orderId)), ValidationFailed))
    case Some(input) =>
      if HasOrderId(s.orders, input.orderId) then
        Skipped(RowError(RowNumber(i), Some(input.orderId), AlreadyExists))
      else match CustomerWithEmail(s.customers, input.customerEmail)
        case None => Skipped(RowError(RowNumber(i), Some(input.orderId), CustomerNotFound))
        case Some(k) =>
          match SaveOrder(input.orderId, s.customers[k].id, input.orderAmount, input.orderDate)
          case None => Skipped(RowError(RowNumber(i), Some(input.orderId), DatabaseError))
          case Some(o) => Created(o, input.customerEmail)
  }

  /** The store and result after an outcome: a skipped row adds one error
      entry; a saved order is appended and summarised. */
  function Apply(s: State, acc: UploadResult, o: RowOutcome): (State, UploadResult) {
    match o
    case Skipped(e) => (s, Fail(acc, e))
    case Created(order, email) =>
      (State(s.customers, s.orders + [order], s.campaigns, s.logs, s.outbox, s.nextId), Succeed(acc, order, email))
  }

  /** One turn of the loop. */
  function RowStep(s: State, acc: UploadResult, row: OrderRow, i: nat, env: Env): (State, UploadResult) {
    Apply(s, acc, Outcome(s, row, i, env))
  }

  /** The loop over the rows, from the first. */
  function Upload(s: State, rows: seq<OrderRow>, env: Env): (State, UploadResult)
    decreases |rows|
  {
    if rows == [] then (s, NoRowsYet)
    else
      var p := Upload(s, rows[..|rows| - 1], env);
      RowStep(p.0, p.1, rows[|rows| - 1], |rows| - 1, env)
  }

  /** The whole route. */
  function PostSpec(s: State, session: bool, file: Option<CsvFile<OrderRow>>, env: Env): (State, Response) {
    match Gate(session, file)
    case Some(code) => (s, Response(code, None))
    case None =>
      match file.value.rows
      case None => (s, Response(400, Some(Fail(NoRowsYet, RowError(ParseErrorRow, None, CsvParsingError)).(failedUploads := 0))))
      case Some(rows) =>
        var (s', r) := Upload(s, rows, env);
        (s', Response(200, Some(r)))
  }

  // ---- The route ----

  /** `POST /api/orders/bulk-upload`. */
  method PostUpload(store: Store, session: bool, file: Option<CsvFile<OrderRow>>, env: Env) returns (response: Response)
    modifies store
    ensures (store.Snapshot(), response) == PostSpec(old(store.Snapshot()), session, file, env)
  {
    if !session {
      return Response(401, None);
    }
    if file.None? {
      return Response(400, None);
    }
    if !IsCsvType(file.value.mimeType) {
      return Response(400, None);
    }
    var result := NoRowsYet;
    if file.value.rows.None? {
      result := result.(errors := result.errors + [RowError(ParseErrorRow, None, CsvParsingError)]);
      return Response(400, Some(result));
    }
    result := UploadRows(store, file.value.rows.value, env);
    response := Response(200, Some(result));
  }

  /** The `for` loop over the rows. */
  method UploadRows(store: Store, rows: seq<OrderRow>, env: Env) returns (result: UploadResult)
    modifies store
    ensures (store.Snapshot(), result) == Upload(old(store.Snapshot()), rows, env)
  {
    ghost var s0 := store.Snapshot();
    result := NoRowsYet;
    for i := 0 to |rows|
      invariant (store.Snapshot(), result) == Upload(s0, rows[..i], env)
    {
      UploadPrefix(s0, rows, i, env);
      result := UploadRow(store, result, rows[i], i, env);
    }
    assert rows[..|rows|] == rows;
  }

  /** The body of the loop: decide the row, then record the outcome. */
  method UploadRow(store: Store, acc: UploadResult, row: OrderRow, i: nat, env: Env) returns (result: UploadResult)
    modifies store
    ensures (store.Snapshot(), result) == RowStep(old(store.Snapshot()), acc, row, i, env)
  {
    ghost var s0 := store.Snapshot();
    var outcome := DecideRow(store, row, i, env);
    StepOf(s0, acc, row, i, env, outcome);
    match outcome
    case Skipped(e) =>
      result := acc.(failedUploads := acc.failedUploads + 1);
      result := result.(errors := result.errors + [e]);
    case Created(o, email) =>
      store.orders := store.orders + [o];
      result := acc.(successfulUploads := acc.successfulUploads + 1);
      result := result.(createdOrders := result.createdOrders + [CreatedOrder(o.orderId, email, o.orderAmount, o.orderDate)]);
  }

  /** The checks of the loop body, in the route's order: validation, the
      lookup by order id, the lookup of the customer by email, then saving. */
  method DecideRow(store: Store, row: OrderRow, i: nat, env: Env) returns (outcome: RowOutcome)
    ensures outcome == Outcome(store.Snapshot(), row, i, env)
  {
    var validation := ParseRow(row, env);
    if validation.None? {
      return Skipped(RowError(RowNumber(i), Some(CellOrNA(row.orderId)), ValidationFailed));
    }
    var input := validation.value;
    if HasOrderId(store.orders, input.orderId) {
      return Skipped(RowError(RowNumber(i), Some(input.orderId), AlreadyExists));
    }
    var customer := CustomerWithEmail(store.customers, input.customerEmail);
    if customer.None? {
      return Skipped(RowError(RowNumber(i), Some(input.orderId), CustomerNotFound));
    }
    var saved := SaveOrder(input.orderId, store.customers[customer.value].id, input.orderAmount, input.orderDate);
    if saved.None? {
      return Skipped(RowError(RowNumber(i), Some(input.orderId), DatabaseError));
    }
    return Created(saved.value, input.customerEmail);
  }

  lemma UploadPrefix(s: State, rows: seq<OrderRow>, i: nat, env: Env)
    requires i < |rows|
    ensures Upload(s, rows[..i + 1], env) == RowStep(Upload(s, rows[..i], env).0, Upload(s, rows[..i], env).1, rows[i], i, env)
  {
    assert rows[..i + 1][..i] == rows[..i];
  }

  // ---- Properties of one row ----

  lemma StepOf(s: State, acc: UploadResult, row: OrderRow, i: nat, env: Env, o: RowOutcome)
    requires Outcome(s, row, i, env) == o
    ensures RowStep(s, acc, row, i, env) == Apply(s, acc, o)
  {
  }

  lemma SkippedStep(s: State, acc: UploadResult, row: OrderRow, i: nat, env: Env, e: RowError)
    requires Outcome(s, row, i, env) == Skipped(e)
    ensures RowStep(s, acc, row, i, env) == (s, Fail(acc, e))
  {
    StepOf(s, acc, row, i, env, Skipped(e));
  }

  lemma SkipCounts(s: State, acc: UploadResult, e: RowError)
    ensures var (s', r) := Apply(s, acc, Skipped(e));
      && r.failedUploads == acc.failedUploads + 1 && r.successfulUploads == acc.successfulUploads
      && r.errors == acc.errors + [e] && r.errors[..|acc.errors|] == acc.errors
      && r.createdOrders == acc.createdOrders && s' == s
  {
    assert (acc.errors + [e])[..|acc.errors|] == acc.errors;
  }

  lemma CreateCounts(s: State, acc: UploadResult, o: Order, email: string)
    ensures var (s', r) := Apply(s, acc, Created(o, email));
      && r.successfulUploads == acc.successfulUploads + 1 && r.failedUploads == acc.failedUploads
      && r.errors == acc.errors
      && r.createdOrders == acc.createdOrders + [CreatedOrder(o.orderId, email, o.orderAmount, o.orderDate)]
      && r.createdOrders[..|acc.createdOrders|] == acc.createdOrders
      && s'.orders == s.orders + [o] && s'.orders[..|s.orders|] == s.orders
      && s'.customers == s.customers && s'.campaigns == s.campaigns && s'.logs == s.logs
      && s'.outbox == s.outbox && s'.nextId == s.nextId
  {
    assert (acc.createdOrders + [CreatedOrder(o.orderId, email, o.orderAmount, o.orderDate)])[..|acc.createdOrders|] == acc.createdOrders;
    assert (s.orders + [o])[..|s.orders|] == s.orders;
  }

  /** An error entry carries the row's number. */
  lemma SkippedRowNumber(s: State, row: OrderRow, i: nat, env: Env)
    ensures Outcome(s, row, i, env).Skipped? ==> Outcome(s, row, i, env).error.row == RowNumber(i)
  {
  }

  /** Each row counts exactly once: as a failure with one error entry for its
      row number and the store untouched, or as a success with one created
      entry and one order appended; the customers never change. */
  lemma RowCountsOnce(s: State, acc: UploadResult, row: OrderRow, i: nat, env: Env)
    ensures var (s', r) := RowStep(s, acc, row, i, env);
      || (&& r.failedUploads == acc.failedUploads + 1 && r.successfulUploads == acc.successfulUploads
          && |r.errors| == |acc.errors| + 1 && r.errors[..|acc.errors|] == acc.errors
          && r.errors[|acc.errors|].row == RowNumber(i)
          && r.createdOrders == acc.createdOrders && s' == s)
      || (&& r.successfulUploads == acc.successfulUploads + 1 && r.failedUploads == acc.failedUploads
          && r.errors == acc.errors && |r.createdOrders| == |acc.createdOrders| + 1
          && r.createdOrders[..|acc.createdOrders|] == acc.createdOrders
          && |s'.orders| == |s.orders| + 1 && s'.orders[..|s.orders|] == s.orders
          && r.createdOrders[|acc.createdOrders|].orderId == s'.orders[|s.orders|].orderId
          && s'.customers == s.customers && s'.campaigns == s.campaigns && s'.logs == s.logs
          && s'.outbox == s.outbox && s'.nextId == s.nextId)
  {
    var o := Outcome(s, row, i, env);
    SkippedRowNumber(s, row, i, env);
    StepOf(s, acc, row, i, env, o);
    match o
    case Skipped(e) => SkipCounts(s, acc, e);
    case Created(order, email) => CreateCounts(s, acc, order, email);
  }

  /** An order is saved from a row that passed validation, whose id is not
      stored, and whose email belongs to a customer; it is the order the
      schema builds for that customer. */
  lemma CreatedFrom(s: State, row: OrderRow, i: nat, env: Env)
    requires Outcome(s, row, i, env).Created?
    ensures ParseRow(row, env).Some?
    ensures var input := ParseRow(row, env).value;
      && !HasOrderId(s.orders, input.orderId)
      && CustomerWithEmail(s.customers, input.customerEmail).Some?
      && Outcome(s, row, i, env).customerEmail == input.customerEmail
      && Some(Outcome(s, row, i, env).order)
         == SaveOrder(input.orderId, s.customers[CustomerWithEmail(s.customers, input.customerEmail).value].id,
                      input.orderAmount, input.orderDate)
  {
  }

  /** A row counts as a success exactly when an order is saved from it. */
  lemma SucceededIsCreated(s: State, acc: UploadResult, row: OrderRow, i: nat, env: Env)
    ensures RowStep(s, acc, row, i, env).1.successfulUploads == acc.successfulUploads + 1
            <==> Outcome(s, row, i, env).Created?
  {
    var o := Outcome(s, row, i, env);
    StepOf(s, acc, row, i, env, o);
    match o
    case Skipped(e) => SkipCounts(s, acc, e);
    case Created(order, email) => CreateCounts(s, acc, order, email);
  }

  /** A row whose order id is already stored is skipped as a duplicate,
      whether or not its customer exists: the id is checked first. */
  lemma DuplicateIdSkipped(s: State, acc: UploadResult, row: OrderRow, i: nat, env: Env)
    requires ParseRow(row, env).Some?
    requires exists k :: 0 <= k < |s.orders| && s.orders[k].orderId == ParseRow(row, env).value.orderId
    ensures RowStep(s, acc, row, i, env) ==
      (s, Fail(acc, RowError(RowNumber(i), Some(ParseRow(row, env).value.orderId), AlreadyExists)))
  {
    var input := ParseRow(row, env).value;
    assert HasOrderId(s.orders, input.orderId);
    SkippedStep(s, acc, row, i, env, RowError(RowNumber(i), Some(input.orderId), AlreadyExists));
  }

  /** A new order id whose email no customer has is skipped as not found. */
  lemma UnknownEmailSkipped(s: State, acc: UploadResult, row: OrderRow, i: nat, env: Env)
    requires ParseRow(row, env).Some?
    requires forall k :: 0 <= k < |s.orders| ==> s.orders[k].orderId != ParseRow(row, env).value.orderId
    requires forall k :: 0 <= k < |s.customers| ==> s.customers[k].email != ParseRow(row, env).value.customerEmail
    ensures RowStep(s, acc, row, i, env) ==
      (s, Fail(acc, RowError(RowNumber(i), Some(ParseRow(row, env).value.orderId), CustomerNotFound)))
  {
    var input := ParseRow(row, env).value;
    assert !HasOrderId(s.orders, input.orderId);
    assert CustomerWithEmail(s.customers, input.customerEmail).None?;
    SkippedStep(s, acc, row, i, env, RowError(RowNumber(i), Some(input.orderId), CustomerNotFound));
  }

  /** An order id made only of whitespace passes `min(1)`, which is checked
      before `trim`, and is refused when the empty id is saved: with its
      customer present and a valid store, the row fails as a database
      error. */
  lemma BlankIdFailsAtSave(s: State, acc: UploadResult, row: OrderRow, i: nat, env: Env)
    requires ValidState(s) && ParseRow(row, env).Some? && Strings.Trim(row.orderId.value) == ""
    requires exists k :: 0 <= k < |s.customers| && s.customers[k].email == ParseRow(row, env).value.customerEmail
    ensures RowStep(s, acc, row, i, env) == (s, Fail(acc, RowError(RowNumber(i), Some(""), DatabaseError)))
  {
    var input := ParseRow(row, env).value;
    assert !HasOrderId(s.orders, input.orderId);
    var k := CustomerWithEmail(s.customers, input.customerEmail);
    assert k.Some?;
    assert SaveOrder(input.orderId, s.customers[k.value].id, input.orderAmount, input.orderDate).None?;
    SkippedStep(s, acc, row, i, env, RowError(RowNumber(i), Some(""), DatabaseError));
  }

  /** A saved order has the row's trimmed id, belongs to the customer with
      the row's normalised email, and carries the row's amount and date. */
  lemma CreatedOrderFields(s: State, acc: UploadResult, row: OrderRow, i: nat, env: Env)
    requires RowStep(s, acc, row, i, env).1.successfulUploads == acc.successfulUploads + 1
    ensures var s' := RowStep(s, acc, row, i, env).0;
      && |s'.orders| == |s.orders| + 1
      && var o := s'.orders[|s.orders|];
      && ValidOrder(o) && o.orderId == Strings.Trim(row.orderId.value)
      && (exists k :: 0 <= k < |s.customers| && s.customers[k].id == o.customerId
            && s.customers[k].email == Strings.Lower(Strings.Trim(row.customerEmail.value)))
      && Some(o.orderAmount) == env.numberOf(row.orderAmount.value)
      && Some(o.orderDate) == env.isoDateOf(row.orderDate.value)
  {
    SucceededIsCreated(s, acc, row, i, env);
    CreatedFrom(s, row, i, env);
    var out := Outcome(s, row, i, env);
    StepOf(s, acc, row, i, env, out);
    CreateCounts(s, acc, out.order, out.customerEmail);
    Strings.TrimIdempotent(row.orderId.value);
    var k := CustomerWithEmail(s.customers, ParseRow(row, env).value.customerEmail).value;
    assert s.customers[k].id == out.order.customerId;
  }

  /** An order saved from a row is stored under the row's trimmed id, so a
      later row with the same id, in the same file, is skipped. */
  lemma SavedIdSkipsLaterRow(s: State, acc: UploadResult, row: OrderRow, i: nat,
                             later: OrderRow, j: nat, env: Env)
    requires RowStep(s, acc, row, i, env).1.successfulUploads == acc.successfulUploads + 1
    requires ParseRow(later, env).Some? && ParseRow(row, env).Some?
    requires ParseRow(later, env).value.orderId == ParseRow(row, env).value.orderId
    ensures var (s1, r1) := RowStep(s, acc, row, i, env);
      RowStep(s1, r1, later, j, env) == (s1, Fail(r1, RowError(RowNumber(j), Some(ParseRow(later, env).value.orderId), AlreadyExists)))
  {
    SucceededIsCreated(s, acc, row, i, env);
    CreatedFrom(s, row, i, env);
    var out := Outcome(s, row, i, env);
    StepOf(s, acc, row, i, env, out);
    CreateCounts(s, acc, out.order, out.customerEmail);
    Strings.TrimIdempotent(row.orderId.value);
    var (s1, r1) := RowStep(s, acc, row, i, env);
    assert s1.orders[|s.orders|].orderId == ParseRow(later, env).value.orderId;
    DuplicateIdSkipped(s1, r1, later, j, env);
  }

  /** A row keeps the store valid: the new order is valid and its id is new
      (the duplicate check, on the id as it is stored). */
  lemma RowKeepsValid(s: State, acc: UploadResult, row: OrderRow, i: nat, env: Env)
    requires ValidState(s)
    ensures ValidState(RowStep(s, acc, row, i, env).0)
  {
    var out := Outcome(s, row, i, env);
    StepOf(s, acc, row, i, env, out);
    match out
    case Skipped(e) =>
    case Created(o, email) =>
      CreatedFrom(s, row, i, env);
      Strings.TrimIdempotent(row.orderId.value);
      assert o.orderId == ParseRow(row, env).value.orderId;
      AppendOrderKeepsValid(s, o);
  }

  lemma AppendOrderKeepsValid(s: State, o: Order)
    requires ValidState(s) && ValidOrder(o) && !HasOrderId(s.orders, o.orderId)
    ensures ValidState(State(s.customers, s.orders + [o], s.campaigns, s.logs, s.outbox, s.nextId))
  {
    OrdersRoute.AppendKeepsOrdersValid(s.orders, o);
  }

  // ---- Properties of the whole upload ----

  /** Every row counts exactly once: the counters add up to the number of
      rows, each failure has one error entry and each success one created
      entry; the error entries' row numbers are those of rows (2 to n + 1)
      and increase; one order is appended per success, and the customers
      and everything else are unchanged. */
  lemma {:induction false} UploadTotals(s: State, rows: seq<OrderRow>, env: Env)
    ensures var (s', r) := Upload(s, rows, env);
      && r.successfulUploads + r.failedUploads == |rows|
      && |r.errors| == r.failedUploads && |r.createdOrders| == r.successfulUploads
      && (forall k :: 0 <= k < |r.errors| ==> 2 <= r.errors[k].row <= |rows| + 1)
      && (forall j, k :: 0 <= j < k < |r.errors| ==> r.errors[j].row < r.errors[k].row)
      && |s'.orders| == |s.orders| + r.successfulUploads && s'.orders[..|s.orders|] == s.orders
      && s'.customers == s.customers && s'.campaigns == s.campaigns && s'.logs == s.logs
      && s'.outbox == s.outbox && s'.nextId == s.nextId
    decreases |rows|
  {
    if rows != [] {
      var n := |rows| - 1;
      UploadTotals(s, rows[..n], env);
      var (s1, r1) := Upload(s, rows[..n], env);
      RowCountsOnce(s1, r1, rows[n], n, env);
      var (s', r) := Upload(s, rows, env);
      assert (s', r) == RowStep(s1, r1, rows[n], n, env);
      ErrorRowsBounded(r1.errors, r.errors, n);
      if |s'.orders| > |s1.orders| {
        assert s'.orders[..|s.orders|] == s1.orders[..|s.orders|];
      }
    }
  }

  /** Appending at most one error entry for row n + 2 to entries for rows 2
      to n + 1, in increasing order, keeps them within 2 to n + 2 and
      increasing. */
  lemma ErrorRowsBounded(before: seq<RowError>, after: seq<RowError>, n: nat)
    requires forall k :: 0 <= k < |before| ==> 2 <= before[k].row <= n + 1
    requires forall j, k :: 0 <= j < k < |before| ==> before[j].row < before[k].row
    requires after == before || (|after| == |before| + 1 && after[..|before|] == before && after[|before|].row == RowNumber(n))
    ensures forall k :: 0 <= k < |after| ==> 2 <= after[k].row <= n + 2
    ensures forall j, k :: 0 <= j < k < |after| ==> after[j].row < after[k].row
  {
    if after != before {
      assert forall k :: 0 <= k < |before| ==> after[k] == before[k];
    }
  }

  /** The upload keeps the store valid. */
  lemma {:induction false} UploadKeepsValid(s: State, rows: seq<OrderRow>, env: Env)
    requires ValidState(s)
    ensures ValidState(Upload(s, rows, env).0)
    decreases |rows|
  {
    if rows != [] {
      var n := |rows| - 1;
      UploadKeepsValid(s, rows[..n], env);
      var p := Upload(s, rows[..n], env);
      RowKeepsValid(p.0, p.1, rows[n], n, env);
    }
  }

  /** When the parser reports errors the route answers 400 with one error
      entry, no row is processed and the store is unchanged. */
  lemma ParseErrorsProcessNothing(s: State, file: CsvFile<OrderRow>, env: Env)
    requires IsCsvType(file.mimeType) && file.rows.None?
    ensures var (s', response) := PostSpec(s, true, Some(file), env);
      && s' == s && response.status == 400 && response.result.Some?
      && response.result.value.successfulUploads == 0 && response.result.value.failedUploads == 0
      && response.result.value.createdOrders == []
      && response.result.value.errors == [RowError(ParseErrorRow, None, CsvParsingError)]
  {
  }
}
