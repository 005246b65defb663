/** `POST /api/customers/bulk-upload`: each row of the uploaded CSV is
    validated, skipped when a customer with its email exists, and otherwise
    saved; the response counts the successes and failures and lists an
    error entry per failed row and a summary per created customer. */
module CustomerBulkUpload {
  import opened Wrappers
  import opened Runtime
  import opened Records
  import opened Db
  import opened CsvUpload
  import Strings

  /** A parsed CSV row, keyed by the header. */
  datatype CustomerRow = CustomerRow(
    name: Option<string>,
    email: Option<string>,
    totalSpends: Option<string>,
    visitCount: Option<string>,
    lastActiveDate: Option<string>)

  /** A row that passed `csvCustomerSchema`; an absent number or date is None. */
  datatype RowInput = RowInput(
    name: string,
    email: string,
    totalSpends: Option<int>,
    visitCount: Option<int>,
    lastActiveDate: Option<int>)

  datatype Problem = ValidationFailed | AlreadyExists | DatabaseError | CsvParsingError

  /** An entry of `errors`: the row number, the email reported, and why. */
  datatype RowError = RowError(row: int, email: Option<string>, problem: Problem)

  /** An entry of `createdCustomers`. */
  datatype CreatedCustomer = CreatedCustomer(name: string, email: string)

  datatype UploadResult = UploadResult(
    successfulUploads: nat,
    failedUploads: nat,
    errors: seq<RowError>,
    createdCustomers: seq<CreatedCustomer>)

  const NoRowsYet := UploadResult(0, 0, [], [])

  datatype Response = Response(status: int, result: Option<UploadResult>)

  /** `csvCustomerSchema.safeParse(row)`: a name with a character before it
      is trimmed, an email zod accepts before it is trimmed and lower-cased,
      optional counts of at least 0 and an optional ISO 8601 date. */
  function ParseRow(row: CustomerRow, env: Env): (r: Option<RowInput>)
    ensures r.Some? <==>
      && row.name.Some? && Strings.JsLength(row.name.value) >= 1
      && row.email.Some? && env.isEmail(row.email.value)
      && CountCell(row.totalSpends, env).Some? && CountCell(row.visitCount, env).Some?
      && DateCell(row.lastActiveDate, env).Some?
    ensures r.Some? ==> r.value.name == Strings.Trim(row.name.value)
    ensures r.Some? ==> r.value.email == Strings.Lower(Strings.Trim(row.email.value))
    ensures r.Some? ==> r.value.totalSpends == CountCell(row.totalSpends, env).value
    ensures r.Some? ==> r.value.visitCount == CountCell(row.visitCount, env).value
    ensures r.Some? ==> r.value.lastActiveDate == DateCell(row.lastActiveDate, env).value
  {
    if row.name.None? || Strings.JsLength(row.name.value) < 1 then None
    else if row.email.None? || !env.isEmail(row.email.value) then None
    else
      var totalSpends :- CountCell(row.totalSpends, env);
      var visitCount :- CountCell(row.visitCount, env);
      var lastActive :- DateCell(row.lastActiveDate, env);
      Some(RowInput(Strings.Trim(row.name.value), Strings.Lower(Strings.Trim(row.email.value)),
                    totalSpends, visitCount, lastActive))
  }

  function Fail(r: UploadResult, e: RowError): UploadResult {
    r.(failedUploads := r.failedUploads + 1, errors := r.errors + [e])
  }

  function Succeed(r: UploadResult, c: Customer): UploadResult {
    r.(successfulUploads := r.successfulUploads + 1, createdCustomers := r.createdCustomers + [CreatedCustomer(c.name, c.email)])
  }

  /** What the loop decides for the row at index `i`: skip it with an error
      entry, or create a customer. A new customer takes the next store id;
      the `?? 0` defaults are applied before it is saved. */
  datatype RowOutcome = Skipped(error: RowError) | Created(customer: Customer)

  function Outcome(s: State, row: CustomerRow, i: nat, env: Env): RowOutcome {
    match ParseRow(row, env)
    case None => Skipped(RowError(RowNumber(i), Some(CellOrNA(row.email)), ValidationFailed))
    case Some(input) =>
      if CustomerWithEmail(s.customers, input.email).Some? then
        Skipped(RowError(RowNumber(i), Some(input.email), AlreadyExists))
      else match SaveCustomer(s.nextId, input.name, input.email, Some(input.totalSpends.GetOr(0)),
                              Some(input.visitCount.GetOr(0)), input.lastActiveDate)
        case None => Skipped(RowError(RowNumber(i), Some(input.email), DatabaseError))
        case Some(c) => Created(c)
  }

  /** The store and result after an outcome: a skipped row adds one error
      entry; a created customer is appended and summarised. */
  function Apply(s: State, acc: UploadResult, o: RowOutcome): (State, UploadResult) {
    match o
    case Skipped(e) => (s, Fail(acc, e))
    case Created(c) => (State(s.customers + [c], s.orders, s.campaigns, s.logs, s.outbox, s.nextId + 1), Succeed(acc, c))
  }

  /** One turn of the loop. */
  function RowStep(s: State, acc: UploadResult, row: CustomerRow, i: nat, env: Env): (State, UploadResult) {
    Apply(s, acc, Outcome(s, row, i, env))
  }

  /** The loop over the rows, from the first. */
  function Upload(s: State, rows: seq<CustomerRow>, env: Env): (State, UploadResult)
    decreases |rows|
  {
    if rows == [] then (s, NoRowsYet)
    else
      var p := Upload(s, rows[..|rows| - 1], env);
      RowStep(p.0, p.1, rows[|rows| - 1], |rows| - 1, env)
  }

  /** The whole route. */
  function PostSpec(s: State, session: bool, file: Option<CsvFile<CustomerRow>>, env: Env): (State, Response) {
    match Gate(session, file)
    case Some(code) => (s, Response(code, None))
    case None =>
      match file.value.rows
      case None => (s, Response(400, Some(Fail(NoRowsYet, RowError(ParseErrorRow, None, CsvParsingError)).(failedUploads := 0))))
      case Some(rows) =>
        var (s', r) := Upload(s, rows, env);
        (s', Response(200, Some(r)))
  }

  // ---- The route ----

  /** `POST /api/customers/bulk-upload`. */
  method PostUpload(store: Store, session: bool, file: Option<CsvFile<CustomerRow>>, env: Env) returns (response: Response)
    modifies store
    ensures (store.Snapshot(), response) == PostSpec(old(store.Snapshot()), session, file, env)
  {
    if !session {
      return Response(401, None);
    }
    if file.None? {
      return Response(400, None);
    }
    if !IsCsvType(file.value.mimeType) {
      return Response(400, None);
    }
    var result := NoRowsYet;
    if file.value.rows.None? {
      result := result.(errors := result.errors + [RowError(ParseErrorRow, None, CsvParsingError)]);
      return Response(400, Some(result));
    }
    result := UploadRows(store, file.value.rows.value, env);
    response := Response(200, Some(result));
  }

  /** The `for` loop over the rows. */
  method UploadRows(store: Store, rows: seq<CustomerRow>, env: Env) returns (result: UploadResult)
    modifies store
    ensures (store.Snapshot(), result) == Upload(old(store.Snapshot()), rows, env)
  {
    ghost var s0 := store.Snapshot();
    result := NoRowsYet;
    for i := 0 to |rows|
      invariant (store.Snapshot(), result) == Upload(s0, rows[..i], env)
    {
      UploadPrefix(s0, rows, i, env);
      result := UploadRow(store, result, rows[i], i, env);
    }
    assert rows[..|rows|] == rows;
  }

  /** The body of the loop: decide the row, then record the outcome. */
  method UploadRow(store: Store, acc: UploadResult, row: CustomerRow, i: nat, env: Env) returns (result: UploadResult)
    modifies store
    ensures (store.Snapshot(), result) == RowStep(old(store.Snapshot()), acc, row, i, env)
  {
    ghost var s0 := store.Snapshot();
    var outcome := DecideRow(store, row, i, env);
    StepOf(s0, acc, row, i, env, outcome);
    match outcome
    case Skipped(e) =>
      result := acc.(failedUploads := acc.failedUploads + 1);
      result := result.(errors := result.errors + [e]);
    case Created(c) =>
      store.customers := store.customers + [c];
      store.nextId := store.nextId + 1;
      result := acc.(successfulUploads := acc.successfulUploads + 1);
      result := result.(createdCustomers := result.createdCustomers + [CreatedCustomer(c.name, c.email)]);
  }

  /** The checks of the loop body, in the route's order: validation, the
      lookup by email, then saving. */
  method DecideRow(store: Store, row: CustomerRow, i: nat, env: Env) returns (outcome: RowOutcome)
    ensures outcome == Outcome(store.Snapshot(), row, i, env)
  {
    var validation := ParseRow(row, env);
    if validation.None? {
      return Skipped(RowError(RowNumber(i), Some(CellOrNA(row.email)), ValidationFailed));
    }
    var input := validation.value;
    var existing := CustomerWithEmail(store.customers, input.email);
    if existing.Some? {
      return Skipped(RowError(RowNumber(i), Some(input.email), AlreadyExists));
    }
    var saved := SaveCustomer(store.nextId, input.name, input.email, Some(input.totalSpends.GetOr(0)),
                              Some(input.visitCount.GetOr(0)), input.lastActiveDate);
    if saved.None? {
      return Skipped(RowError(RowNumber(i), Some(input.email), DatabaseError));
    }
    return Created(saved.value);
  }

  lemma UploadPrefix(s: State, rows: seq<CustomerRow>, i: nat, env: Env)
    requires i < |rows|
    ensures Upload(s, rows[..i + 1], env) == RowStep(Upload(s, rows[..i], env).0, Upload(s, rows[..i], env).1, rows[i], i, env)
  {
    assert rows[..i + 1][..i] == rows[..i];
  }

  // ---- Properties of one row ----

  /** Each row counts exactly once: as a failure with one error entry for its
      row number and the store untouched, or as a success with one created
      entry and one customer appended. */
  lemma RowCountsOnce(s: State, acc: UploadResult, row: CustomerRow, i: nat, env: Env)
    ensures var (s', r) := RowStep(s, acc, row, i, env);
      || (&& r.failedUploads == acc.failedUploads + 1 && r.successfulUploads == acc.successfulUploads
          && |r.errors| == |acc.errors| + 1 && r.errors[..|acc.errors|] == acc.errors
          && r.errors[|acc.errors|].row == RowNumber(i)
          && r.createdCustomers == acc.createdCustomers && s' == s)
      || (&& r.successfulUploads == acc.successfulUploads + 1 && r.failedUploads == acc.failedUploads
          && r.errors == acc.errors && |r.createdCustomers| == |acc.createdCustomers| + 1
          && r.createdCustomers[..|acc.createdCustomers|] == acc.createdCustomers
          && |s'.customers| == |s.customers| + 1 && s'.customers[..|s.customers|] == s.customers
          && r.createdCustomers[|acc.createdCustomers|] == CreatedCustomer(s'.customers[|s.customers|].name, s'.customers[|s.customers|].email)
          && s'.orders == s.orders && s'.campaigns == s.campaigns && s'.logs == s.logs && s'.outbox == s.outbox)
  {
    var o := Outcome(s, row, i, env);
    SkippedRowNumber(s, row, i, env);
    match o
    case Skipped(e) => SkipCounts(s, acc, e);
    case Created(c) => CreateCounts(s, acc, c);
  }

  /** An error entry carries the row's number. */
  lemma SkippedRowNumber(s: State, row: CustomerRow, i: nat, env: Env)
    ensures Outcome(s, row, i, env).Skipped? ==> Outcome(s, row, i, env).error.row == RowNumber(i)
  {
  }

  lemma SkipCounts(s: State, acc: UploadResult, e: RowError)
    ensures var (s', r) := Apply(s, acc, Skipped(e));
      && r.failedUploads == acc.failedUploads + 1 && r.successfulUploads == acc.successfulUploads
      && r.errors == acc.errors + [e] && r.errors[..|acc.errors|] == acc.errors
      && r.createdCustomers == acc.createdCustomers && s' == s
  {
    assert (acc.errors + [e])[..|acc.errors|] == acc.errors;
  }

  lemma CreateCounts(s: State, acc: UploadResult, c: Customer)
    ensures var (s', r) := Apply(s, acc, Created(c));
      && r.successfulUploads == acc.successfulUploads + 1 && r.failedUploads == acc.failedUploads
      && r.errors == acc.errors && r.createdCustomers == acc.createdCustomers + [CreatedCustomer(c.name, c.email)]
      && r.createdCustomers[..|acc.createdCustomers|] == acc.createdCustomers
      && s'.customers == s.customers + [c] && s'.customers[..|s.customers|] == s.customers
      && s'.orders == s.orders && s'.campaigns == s.campaigns && s'.logs == s.logs && s'.outbox == s.outbox
      && s'.nextId == s.nextId + 1
  {
    assert (acc.createdCustomers + [CreatedCustomer(c.name, c.email)])[..|acc.createdCustomers|] == acc.createdCustomers;
    assert (s.customers + [c])[..|s.customers|] == s.customers;
  }

  lemma SkippedStep(s: State, acc: UploadResult, row: CustomerRow, i: nat, env: Env, e: RowError)
    requires Outcome(s, row, i, env) == Skipped(e)
    ensures RowStep(s, acc, row, i, env) == (s, Fail(acc, e))
  {
    StepOf(s, acc, row, i, env, Skipped(e));
  }

  lemma CreatedStep(s: State, acc: UploadResult, row: CustomerRow, i: nat, env: Env, c: Customer)
    requires Outcome(s, row, i, env) == Created(c)
    ensures RowStep(s, acc, row, i, env)
            == (State(s.customers + [c], s.orders, s.campaigns, s.logs, s.outbox, s.nextId + 1), Succeed(acc, c))
  {
    StepOf(s, acc, row, i, env, Created(c));
    ApplyCreated(s, acc, c);
  }

  lemma ApplyCreated(s: State, acc: UploadResult, c: Customer)
    ensures Apply(s, acc, Created(c))
            == (State(s.customers + [c], s.orders, s.campaigns, s.logs, s.outbox, s.nextId + 1), Succeed(acc, c))
  {
  }

  lemma StepOf(s: State, acc: UploadResult, row: CustomerRow, i: nat, env: Env, o: RowOutcome)
    requires Outcome(s, row, i, env) == o
    ensures RowStep(s, acc, row, i, env) == Apply(s, acc, o)
  {
  }

  /** A row counts as a success exactly when a customer is created from it. */
  lemma SucceededIsCreated(s: State, acc: UploadResult, row: CustomerRow, i: nat, env: Env)
    ensures RowStep(s, acc, row, i, env).1.successfulUploads == acc.successfulUploads + 1
            <==> Outcome(s, row, i, env).Created?
  {
    match Outcome(s, row, i, env)
    case Skipped(e) => SkipCounts(s, acc, e);
    case Created(c) => CreateCounts(s, acc, c);
  }

  /** A customer is created from a row that passed validation, whose email is
      not stored, and whose customer the schema accepted. */
  lemma CreatedFrom(s: State, row: CustomerRow, i: nat, env: Env)
    requires Outcome(s, row, i, env).Created?
    ensures ParseRow(row, env).Some?
    ensures var input := ParseRow(row, env).value;
      && CustomerWithEmail(s.customers, input.email).None?
      && Some(Outcome(s, row, i, env).customer)
         == SaveCustomer(s.nextId, input.name, input.email, Some(input.totalSpends.GetOr(0)),
                         Some(input.visitCount.GetOr(0)), input.lastActiveDate)
  {
  }

  /** A row whose email is already stored is skipped as a failure. */
  lemma ExistingEmailSkipped(s: State, acc: UploadResult, row: CustomerRow, i: nat, env: Env)
    requires ParseRow(row, env).Some?
    requires exists k :: 0 <= k < |s.customers| && s.customers[k].email == ParseRow(row, env).value.email
    ensures RowStep(s, acc, row, i, env) ==
      (s, Fail(acc, RowError(RowNumber(i), Some(ParseRow(row, env).value.email), AlreadyExists)))
  {
    var input := ParseRow(row, env).value;
    assert CustomerWithEmail(s.customers, input.email).Some?;
    assert Outcome(s, row, i, env) == Skipped(RowError(RowNumber(i), Some(input.email), AlreadyExists));
  }

  /** A customer saved from a row is stored under the row's normalised
      email, so a later row with the same email, in the same file, is
      skipped. */
  lemma SavedEmailSkipsLaterRow(s: State, acc: UploadResult, row: CustomerRow, i: nat,
                                later: CustomerRow, j: nat, env: Env)
    requires RowStep(s, acc, row, i, env).1.successfulUploads == acc.successfulUploads + 1
    requires ParseRow(later, env).Some? && ParseRow(row, env).Some?
    requires ParseRow(later, env).value.email == ParseRow(row, env).value.email
    ensures var (s1, r1) := RowStep(s, acc, row, i, env);
      RowStep(s1, r1, later, j, env) == (s1, Fail(r1, RowError(RowNumber(j), Some(ParseRow(later, env).value.email), AlreadyExists)))
  {
    SucceededIsCreated(s, acc, row, i, env);
    CreatedFrom(s, row, i, env);
    var input := ParseRow(row, env).value;
    var c := Outcome(s, row, i, env).customer;
    CreateCounts(s, acc, c);
    var (s1, r1) := RowStep(s, acc, row, i, env);
    StoredEmail(row.email.value);
    assert c.email == input.email;
    assert s1.customers[|s.customers|] == c;
    ExistingEmailSkipped(s1, r1, later, j, env);
  }

  /** The email zod produced is stored unchanged by the schema's setters. */
  lemma StoredEmail(raw: string)
    ensures var e := Strings.Lower(Strings.Trim(raw)); Strings.Lower(Strings.Trim(e)) == e
  {
    var e := Strings.Lower(Strings.Trim(raw));
    NormalisedEmail(raw);
    Strings.TrimmedIsFixed(e);
  }

  /** A created customer has the row's normalised name and email, spends and
      visits of 0 when those cells are blank, and no last-active date when
      that cell is blank. */
  lemma CreatedDefaults(s: State, acc: UploadResult, row: CustomerRow, i: nat, env: Env)
    requires RowStep(s, acc, row, i, env).1.successfulUploads == acc.successfulUploads + 1
    ensures var s' := RowStep(s, acc, row, i, env).0;
      && |s'.customers| == |s.customers| + 1
      && var c := s'.customers[|s.customers|];
      && c.id == s.nextId && ValidCustomer(c)
      && c.name == Strings.Trim(row.name.value) && c.email == Strings.Lower(Strings.Trim(row.email.value))
      && (Blank(row.totalSpends) ==> c.totalSpends == 0)
      && (!Blank(row.totalSpends) ==> Some(c.totalSpends) == env.numberOf(row.totalSpends.value))
      && (Blank(row.visitCount) ==> c.visitCount == 0)
      && (!Blank(row.visitCount) ==> Some(c.visitCount) == env.numberOf(row.visitCount.value))
      && (Blank(row.lastActiveDate) ==> c.lastActiveDate.None?)
  {
    SucceededIsCreated(s, acc, row, i, env);
    CreatedFrom(s, row, i, env);
    var c := Outcome(s, row, i, env).customer;
    CreateCounts(s, acc, c);
    StoredEmail(row.email.value);
    Strings.TrimIdempotent(row.name.value);
  }

  /** A row keeps the store valid: the new customer is valid, its email is
      new (the duplicate check), and its id is new (the next id). */
  lemma RowKeepsValid(s: State, acc: UploadResult, row: CustomerRow, i: nat, env: Env)
    requires ValidState(s)
    ensures ValidState(RowStep(s, acc, row, i, env).0)
  {
    match Outcome(s, row, i, env)
    case Skipped(e) =>
      SkippedStep(s, acc, row, i, env, e);
    case Created(c) =>
      CreatedStep(s, acc, row, i, env, c);
      CreatedFrom(s, row, i, env);
      StoredEmail(row.email.value);
      AppendCustomerValid(s, c);
  }

  /** Appending a valid customer with a fresh id and an unused email to a
      valid store gives a valid store. */
  lemma AppendCustomerValid(s: State, c: Customer)
    requires ValidState(s) && ValidCustomer(c) && c.id == s.nextId
    requires forall k :: 0 <= k < |s.customers| ==> s.customers[k].email != c.email
    ensures ValidState(State(s.customers + [c], s.orders, s.campaigns, s.logs, s.outbox, s.nextId + 1))
  {
    var cs := s.customers + [c];
    assert forall k :: 0 <= k < |s.customers| ==> cs[k] == s.customers[k];
    forall i, j | 0 <= i < j < |cs|
      ensures cs[i].id != cs[j].id && cs[i].email != cs[j].email
    {
      if j == |s.customers| {
        assert cs[j] == c;
      }
    }
  }

  // ---- Properties of the whole upload ----

  /** Every row counts exactly once: the counters add up to the number of
      rows, each failure has one error entry and each success one created
      entry; the error entries' row numbers are those of rows (2 to n + 1)
      and increase; one customer is appended per success and nothing else
      changes. */
  lemma {:induction false} UploadTotals(s: State, rows: seq<CustomerRow>, env: Env)
    ensures var (s', r) := Upload(s, rows, env);
      && r.successfulUploads + r.failedUploads == |rows|
      && |r.errors| == r.failedUploads && |r.createdCustomers| == r.successfulUploads
      && (forall k :: 0 <= k < |r.errors| ==> 2 <= r.errors[k].row <= |rows| + 1)
      && (forall j, k :: 0 <= j < k < |r.errors| ==> r.errors[j].row < r.errors[k].row)
      && |s'.customers| == |s.customers| + r.successfulUploads && s'.customers[..|s.customers|] == s.customers
      && s'.orders == s.orders && s'.campaigns == s.campaigns && s'.logs == s.logs && s'.outbox == s.outbox
    decreases |rows|
  {
    if rows != [] {
      var n := |rows| - 1;
      UploadTotals(s, rows[..n], env);
      var (s1, r1) := Upload(s, rows[..n], env);
      RowCountsOnce(s1, r1, rows[n], n, env);
      var (s', r) := Upload(s, rows, env);
      assert (s', r) == RowStep(s1, r1, rows[n], n, env);
      ErrorRowsBounded(r1.errors, r.errors, n);
      if |s'.customers| > |s1.customers| {
        assert s'.customers[..|s.customers|] == s1.customers[..|s.customers|];
      }
    }
  }

  /** Appending at most one error entry for row n + 2 to entries for rows 2
      to n + 1, in increasing order, keeps them within 2 to n + 2 and
      increasing. */
  lemma ErrorRowsBounded(before: seq<RowError>, after: seq<RowError>, n: nat)
    requires forall k :: 0 <= k < |before| ==> 2 <= before[k].row <= n + 1
    requires forall j, k :: 0 <= j < k < |before| ==> before[j].row < before[k].row
    requires after == before || (|after| == |before| + 1 && after[..|before|] == before && after[|before|].row == RowNumber(n))
    ensures forall k :: 0 <= k < |after| ==> 2 <= after[k].row <= n + 2
    ensures forall j, k :: 0 <= j < k < |after| ==> after[j].row < after[k].row
  {
    if after != before {
      assert forall k :: 0 <= k < |before| ==> after[k] == before[k];
    }
  }

  /** The upload keeps the store valid. */
  lemma {:induction false} UploadKeepsValid(s: State, rows: seq<CustomerRow>, env: Env)
    requires ValidState(s)
    ensures ValidState(Upload(s, rows, env).0)
    decreases |rows|
  {
    if rows != [] {
      var n := |rows| - 1;
      UploadKeepsValid(s, rows[..n], env);
      var p := Upload(s, rows[..n], env);
      RowKeepsValid(p.0, p.1, rows[n], n, env);
    }
  }

  /** When the parser reports errors the route answers 400 with one error
      entry, no row is processed and the store is unchanged. */
  lemma ParseErrorsProcessNothing(s: State, file: CsvFile<CustomerRow>, env: Env)
    requires IsCsvType(file.mimeType) && file.rows.None?
    ensures var (s', response) := PostSpec(s, true, Some(file), env);
      && s' == s && response.status == 400 && response.result.Some?
      && response.result.value.successfulUploads == 0 && response.result.value.failedUploads == 0
      && response.result.value.createdCustomers == []
      && response.result.value.errors == [RowError(ParseErrorRow, None, CsvParsingError)]
  {
  }
}
