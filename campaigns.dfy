/** Campaign creation, `POST /api/campaigns`: validate the body, compile the
    audience rules, pick the segment, save the campaign as a DRAFT, write one
    PENDING communication log per targeted customer with its personalised
    message, and issue one send request to the vendor per log. */
module CampaignsRoute {
  import opened Wrappers
  import opened Runtime
  import opened CampaignModel
  import opened CommunicationLog
  import opened Records
  import opened Filters
  import opened QueryBuilder
  import opened QueryBuilderFacts
  import opened RuleSemantics
  import opened QueryCast
  import opened Validations
  import opened Db
  import opened AudiencePreview
  import opened Personalization
  import Strings

  /** The posted body: `name`, `audienceRules`, `messageTemplate`. */
  datatype CampaignBody = CampaignBody(name: JsonValue, audienceRules: RawGroup, messageTemplate: JsonValue)

  datatype CampaignInput = CampaignInput(name: string, rules: RuleGroup, template: string)

  /** `createCampaignSchema`: a name of at least 3 and a template of at least
      10 UTF-16 code units, and audience rules the rule-set schema accepts. */
  function ParseCampaignBody(b: CampaignBody): (r: Option<CampaignInput>)
    ensures r.Some? <==>
      && b.name.Str? && Strings.JsLength(b.name.s) >= 3
      && ValidateGroup(b.audienceRules).Some?
      && b.messageTemplate.Str? && Strings.JsLength(b.messageTemplate.s) >= 10
    ensures r.Some? ==> r.value.name == b.name.s && r.value.template == b.messageTemplate.s
                        && Some(r.value.rules) == ValidateGroup(b.audienceRules)
    ensures r.Some? ==> |r.value.template| >= 5
  {
    if !b.name.Str? || Strings.JsLength(b.name.s) < 3 then None
    else match ValidateGroup(b.audienceRules)
      case None => None
      case Some(rules) =>
        if !b.messageTemplate.Str? || Strings.JsLength(b.messageTemplate.s) < 10 then None
        else Some(CampaignInput(b.name.s, rules, b.messageTemplate.s))
  }

  /** The customers the route targets: those the filter selects when it is
      not `{}`; when it is `{}`, every customer if the rule set is truly
      empty, and nobody otherwise. */
  function Segment(rules: RuleGroup, f: Filter, cs: seq<Customer>): (r: seq<Customer>)
    ensures forall x :: x in r ==> x in cs
  {
    if !IsEmptyFilter(f) then Select(f, cs)
    else if IsTrulyEmpty(rules) then Select(MatchAll, cs)
    else []
  }

  /** The campaign document as the route builds it. */
  function NewCampaignFields(input: CampaignInput, audienceSize: nat, user: Option<nat>): CampaignFields {
    CampaignFields(Some(input.name), Some(input.rules), Some(input.template), Some(Draft),
                   Some(audienceSize), None, None, user, None)
  }

  /** The log for one targeted customer, before validation. */
  function LogFor(campaignId: nat, template: string, user: nat, c: Customer): Option<CommunicationLog> {
    NewLog(LogFields(Some(campaignId), Some(c.id), Some(Personalize(template, c)), Some(Pending), Some(user)))
  }

  /** `customersInSegment.map(...)`: one log per customer, in order. */
  function NewLogs(seg: seq<Customer>, campaignId: nat, template: string, user: nat): (r: seq<Option<CommunicationLog>>)
    ensures |r| == |seg|
  {
    seq(|seg|, i requires 0 <= i < |seg| => LogFor(campaignId, template, user, seg[i]))
  }

  /** `insertMany` validates every document first: the logs when all are
      valid, None otherwise. */
  function Collect(made: seq<Option<CommunicationLog>>): Option<seq<CommunicationLog>> {
    if made == [] then Some([])
    else match made[0]
      case None => None
      case Some(l) =>
        match Collect(made[1..])
        case None => None
        case Some(ls) => Some([l] + ls)
  }

  /** `Collect` succeeds exactly when every log is valid, and then keeps
      them in order. */
  lemma {:induction false} CollectContents(made: seq<Option<CommunicationLog>>)
    ensures Collect(made).Some? <==> forall i :: 0 <= i < |made| ==> made[i].Some?
    ensures Collect(made).Some? ==>
      |Collect(made).value| == |made| && forall i :: 0 <= i < |made| ==> made[i] == Some(Collect(made).value[i])
  {
    if made != [] {
      CollectContents(made[1..]);
      assert forall i :: 1 <= i < |made| ==> made[i] == made[1..][i - 1];
    }
  }

  /** The inserted logs take the ids `first`, `first + 1`, ... */
  function InsertLogs(logs: map<nat, CommunicationLog>, first: nat, ls: seq<CommunicationLog>): map<nat, CommunicationLog> {
    if ls == [] then logs
    else InsertLogs(logs, first, ls[..|ls| - 1])[first + |ls| - 1 := ls[|ls| - 1]]
  }

  /** After inserting, the ids `first` to `first + |ls| - 1` hold the logs in
      order, and every other id holds what it held before. */
  lemma {:induction false} InsertLogsContents(logs: map<nat, CommunicationLog>, first: nat, ls: seq<CommunicationLog>)
    ensures forall k :: k in InsertLogs(logs, first, ls) <==> k in logs || first <= k < first + |ls|
    ensures forall k :: first <= k < first + |ls| ==> InsertLogs(logs, first, ls)[k] == ls[k - first]
    ensures forall k :: k in logs && !(first <= k < first + |ls|) ==> InsertLogs(logs, first, ls)[k] == logs[k]
  {
    if ls != [] {
      var init := ls[..|ls| - 1];
      InsertLogsContents(logs, first, init);
    }
  }

  /** The send request for one log: the first targeted customer with the
      log's customer id, its email, the log's message and the log's id. */
  function RequestFor(seg: seq<Customer>, l: CommunicationLog, id: nat): seq<VendorRequest> {
    match CustomerWithId(seg, l.customerId)
    case None => []
    case Some(k) => [VendorRequest(seg[k].id, seg[k].email, l.message, id)]
  }

  /** The requests for the logs, in order; `first` is the first log's id. */
  function Requests(seg: seq<Customer>, ls: seq<CommunicationLog>, first: nat): seq<VendorRequest> {
    if ls == [] then []
    else Requests(seg, ls[..|ls| - 1], first) + RequestFor(seg, ls[|ls| - 1], first + |ls| - 1)
  }

  /** The outcome of one request. `session` is None without a session and
      carries the user's id, if the session has one. */
  function CreateSpec(s: State, session: Option<Option<nat>>, body: CampaignBody, env: Env, mode: TextPatterns): (State, int) {
    if session.None? then (s, 401)
    else match ParseCampaignBody(body)
      case None => (s, 400)
      case Some(input) =>
        match ParseGroup(input.rules, env, mode)
        case Err(_) => (s, 500)
        case Ok(f) =>
          match CastQuery(f, env)
          case Err(_) => (s, 500)
          case Ok(q) => LaunchSpec(s, input, q, session.value)
  }

  /** The route once the rules have compiled and cast to `f`: the segment and its
      logs (computed from the campaign's future id and the session user),
      then the campaign, the logs and their send requests. */
  function LaunchSpec(s: State, input: CampaignInput, f: Filter, user: Option<nat>): (State, int) {
    var seg := Segment(input.rules, f, s.customers);
    PersistSpec(s, seg, SaveCampaign(NewCampaignFields(input, |seg|, user)), NewLogs(seg, s.nextId, input.template, user.GetOr(0)))
  }

  /** Saving the validated campaign document `saved` (None when the schema
      refuses it) for segment `seg`, then the logs `made` and their send
      requests when the segment is not empty. */
  function PersistSpec(s: State, seg: seq<Customer>, saved: Option<Campaign>,
                       made: seq<Option<CommunicationLog>>): (State, int) {
    match saved
    case None => (s, 500)
    case Some(c) =>
      var id := s.nextId;
      var s1 := s.(campaigns := s.campaigns[id := c], nextId := id + 1);
      if |seg| == 0 then (s1, 201)
      else match Collect(made)
        case None => (s1, 500)
        case Some(ls) =>
          (State(s.customers, s.orders, s.campaigns[id := c], InsertLogs(s.logs, id + 1, ls),
                 s.outbox + Requests(seg, ls, id + 1), id + 1 + |ls|), 201)
  }

  /** `POST /api/campaigns`. */
  method CreateCampaign(store: Store, session: Option<Option<nat>>, body: CampaignBody, env: Env, mode: TextPatterns)
    returns (status: int)
    modifies store
    ensures (store.Snapshot(), status) == CreateSpec(old(store.Snapshot()), session, body, env, mode)
  {
    if session.None? {
      return 401;
    }
    var validation := ParseCampaignBody(body);
    if validation.None? {
      return 400;
    }
    var input := validation.value;
    var query := CompileGroup(input.rules, env, mode);
    if query.Err? {
      return 500;
    }
    var cast := CastQuery(query.value, env);
    if cast.Err? {
      return 500;
    }
    status := Launch(store, input, cast.value, session.value);
  }

  /** The route from the audience query on. */
  method Launch(store: Store, input: CampaignInput, query: Filter, user: Option<nat>) returns (status: int)
    modifies store
    ensures (store.Snapshot(), status) == LaunchSpec(old(store.Snapshot()), input, query, user)
  {
    var audienceSize := 0;
    var segment: seq<Customer> := [];
    if !query.MatchAll? {
      segment := Select(query, store.customers);
      audienceSize := |segment|;
    } else if |input.rules.conditions| == 0 && |input.rules.groups| == 0 {
      segment := Select(MatchAll, store.customers);
      audienceSize := |segment|;
    }
    assert segment == Segment(input.rules, query, store.customers);
    var saved := SaveCampaign(NewCampaignFields(input, |segment|, user));
    var made := NewLogs(segment, store.nextId, input.template, user.GetOr(0));
    status := Persist(store, segment, saved, made);
  }

  /** Saving the campaign, inserting its logs, sending. */
  method Persist(store: Store, segment: seq<Customer>, saved: Option<Campaign>,
                 made: seq<Option<CommunicationLog>>) returns (status: int)
    modifies store
    ensures (store.Snapshot(), status) == PersistSpec(old(store.Snapshot()), segment, saved, made)
  {
    ghost var s0 := store.Snapshot();
    if saved.None? {
      return 500;
    }
    var id := store.nextId;
    store.campaigns := store.campaigns[id := saved.value];
    store.nextId := id + 1;
    ghost var s1 := s0.(campaigns := s0.campaigns[id := saved.value], nextId := id + 1);
    assert store.Snapshot() == s1;
    if |segment| == 0 {
      return 201;
    }
    var logs := Collect(made);
    if logs.None? {
      return 500;
    }
    store.logs := InsertLogs(store.logs, id + 1, logs.value);
    store.nextId := id + 1 + |logs.value|;
    SendAll(store, segment, logs.value, id + 1);
    PersistLogs(s0, segment, saved.value, made, logs.value);
    return 201;
  }

  /** The route's `for` loop over the new logs: one request per log whose
      customer is found in the segment, appended in order. */
  method SendAll(store: Store, seg: seq<Customer>, ls: seq<CommunicationLog>, first: nat)
    modifies store
    ensures store.outbox == old(store.outbox) + Requests(seg, ls, first)
    ensures store.customers == old(store.customers) && store.orders == old(store.orders)
    ensures store.campaigns == old(store.campaigns) && store.logs == old(store.logs) && store.nextId == old(store.nextId)
  {
    for i := 0 to |ls|
      invariant store.outbox == old(store.outbox) + Requests(seg, ls[..i], first)
      invariant store.customers == old(store.customers) && store.orders == old(store.orders)
      invariant store.campaigns == old(store.campaigns) && store.logs == old(store.logs) && store.nextId == old(store.nextId)
    {
      assert ls[..i + 1][..i] == ls[..i];
      assert Requests(seg, ls[..i + 1], first) == Requests(seg, ls[..i], first) + RequestFor(seg, ls[i], first + i);
      var found := CustomerWithId(seg, ls[i].customerId);
      if found.None? {
        continue;
      }
      var customer := seg[found.value];
      store.outbox := store.outbox + [VendorRequest(customer.id, customer.email, ls[i].message, first + i)];
    }
    assert ls[..|ls|] == ls;
  }

  // ---- Properties of campaign creation ----

  /** A stored customer's message is never empty: the template has at least
      five characters and the name and email are not empty. */
  lemma LogsAlwaysValid(s: State, seg: seq<Customer>, id: nat, template: string, user: nat)
    requires ValidState(s) && |template| >= 5
    requires forall x :: x in seg ==> x in s.customers
    ensures Collect(NewLogs(seg, id, template, user)).Some?
  {
    var made := NewLogs(seg, id, template, user);
    forall i | 0 <= i < |made|
      ensures made[i].Some?
    {
      assert seg[i] in s.customers;
      var k :| 0 <= k < |s.customers| && s.customers[k] == seg[i];
      assert ValidCustomer(seg[i]);
      assert seg[i].email != [];
    }
    CollectContents(made);
  }

  predicate IdsDistinct(cs: seq<Customer>) {
    forall i, j :: 0 <= i < j < |cs| ==> cs[i].id != cs[j].id
  }

  /** Selecting keeps customer ids distinct. */
  lemma {:induction false} SelectKeepsIdsDistinct(f: Filter, cs: seq<Customer>)
    requires IdsDistinct(cs)
    ensures IdsDistinct(Select(f, cs))
  {
    if cs != [] {
      var rest := Select(f, cs[1..]);
      SelectKeepsIdsDistinct(f, cs[1..]);
      if Matches(f, cs[0]) {
        forall x | x in rest
          ensures x.id != cs[0].id
        {
          var m :| 0 <= m < |cs[1..]| && cs[1..][m] == x;
          assert cs[m + 1] == x;
        }
        var r := Select(f, cs);
        assert r == [cs[0]] + rest;
        forall i, j | 0 <= i < j < |r|
          ensures r[i].id != r[j].id
        {
          if i > 0 {
            assert r[i] == rest[i - 1] && r[j] == rest[j - 1];
          } else {
            assert r[j] == rest[j - 1] && r[j] in rest;
          }
        }
      }
    }
  }

  /** The requests, one per log whose customer is in the segment; with
      distinct ids in the segment and log `i` made for `seg[i]`, request `i`
      goes to `seg[i]` with log `i`'s message and id. */
  lemma {:induction false} RequestsContents(seg: seq<Customer>, ls: seq<CommunicationLog>, first: nat)
    requires |ls| <= |seg|
    requires IdsDistinct(seg)
    requires forall i :: 0 <= i < |ls| ==> ls[i].customerId == seg[i].id
    ensures var r := Requests(seg, ls, first);
      && |r| == |ls|
      && forall i :: 0 <= i < |ls| ==> r[i] == VendorRequest(seg[i].id, seg[i].email, ls[i].message, first + i)
  {
    if ls != [] {
      var n := |ls| - 1;
      RequestsContents(seg, ls[..n], first);
      var k := CustomerWithId(seg, ls[n].customerId);
      assert k.Some?;
      assert k.value == n;
    }
  }

  /** Log `i` for a targeted customer: for the new campaign, that customer,
      its personalised message, PENDING, nothing sent yet. */
  function PendingLog(campaignId: nat, template: string, user: nat, c: Customer): CommunicationLog {
    CommunicationLog(campaignId, c.id, Personalize(template, c), Pending, None, None, None, None, None, user)
  }

  lemma LogsContents(s: State, seg: seq<Customer>, id: nat, template: string, user: nat)
    requires ValidState(s) && |template| >= 5
    requires forall x :: x in seg ==> x in s.customers
    ensures var ls := Collect(NewLogs(seg, id, template, user));
      && ls.Some? && |ls.value| == |seg|
      && forall i :: 0 <= i < |seg| ==> ls.value[i] == PendingLog(id, template, user, seg[i])
  {
    LogsAlwaysValid(s, seg, id, template, user);
    CollectContents(NewLogs(seg, id, template, user));
  }

  /** What a successful creation leaves behind, for segment `seg` and user
      `u`: customers and orders untouched; the DRAFT campaign under the next
      id with the segment's size and zero counters; one PENDING log per
      targeted customer under the following ids, the older logs kept; and
      one send request per log, in order, appended to the outbox. */
  ghost predicate Launched(s: State, s': State, input: CampaignInput, seg: seq<Customer>, u: nat) {
    CampaignSaved(s, s', input, seg, u) && LogsWritten(s, s', input, seg, u) && RequestsSent(s, s', input, seg)
  }

  ghost predicate CampaignSaved(s: State, s': State, input: CampaignInput, seg: seq<Customer>, u: nat) {
    var id := s.nextId;
    && s'.customers == s.customers && s'.orders == s.orders
    && s'.campaigns == s.campaigns[id := Campaign(Strings.Trim(input.name), input.rules, input.template, Draft, |seg|, 0, 0, u, [], None)]
    && s'.nextId == id + 1 + |seg|
  }

  ghost predicate LogsWritten(s: State, s': State, input: CampaignInput, seg: seq<Customer>, u: nat) {
    var id := s.nextId;
    && (forall k :: k in s'.logs <==> k in s.logs || id < k <= id + |seg|)
    && (forall k :: k in s.logs ==> s'.logs[k] == s.logs[k])
    && (forall i :: 0 <= i < |seg| ==> s'.logs[id + 1 + i] == PendingLog(id, input.template, u, seg[i]))
  }

  ghost predicate RequestsSent(s: State, s': State, input: CampaignInput, seg: seq<Customer>) {
    var id := s.nextId;
    && |s'.outbox| == |s.outbox| + |seg| && s'.outbox[..|s.outbox|] == s.outbox
    && (forall i :: 0 <= i < |seg| ==>
          s'.outbox[|s.outbox| + i] == VendorRequest(seg[i].id, seg[i].email, Personalize(input.template, seg[i]), id + 1 + i))
  }

  lemma PersistEffect(s: State, input: CampaignInput, seg: seq<Customer>, user: Option<nat>)
    requires ValidState(s) && |input.template| >= 5
    requires forall x :: x in seg ==> x in s.customers
    requires IdsDistinct(seg)
    requires SaveCampaign(NewCampaignFields(input, |seg|, user)).Some?
    ensures user.Some?
    ensures var r := PersistSpec(s, seg, SaveCampaign(NewCampaignFields(input, |seg|, user)),
                                 NewLogs(seg, s.nextId, input.template, user.GetOr(0)));
      r.1 == 201 && Launched(s, r.0, input, seg, user.value)
  {
    SavedDraft(input, |seg|, user);
    var made := NewLogs(seg, s.nextId, input.template, user.value);
    LogsContents(s, seg, s.nextId, input.template, user.value);
    assert forall k :: k in s.logs ==> k < s.nextId;
    PersistLaunched(s, input, seg, user.value, SaveCampaign(NewCampaignFields(input, |seg|, user)).value, made, Collect(made).value);
  }

  lemma PersistLaunched(s: State, input: CampaignInput, seg: seq<Customer>, u: nat, c: Campaign,
                        made: seq<Option<CommunicationLog>>, ls: seq<CommunicationLog>)
    requires (forall k :: k in s.logs ==> k < s.nextId) && IdsDistinct(seg)
    requires c == Campaign(Strings.Trim(input.name), input.rules, input.template, Draft, |seg|, 0, 0, u, [], None)
    requires Collect(made) == Some(ls)
    requires |ls| == |seg| && forall i :: 0 <= i < |seg| ==> ls[i] == PendingLog(s.nextId, input.template, u, seg[i])
    ensures PersistSpec(s, seg, Some(c), made).1 == 201 && Launched(s, PersistSpec(s, seg, Some(c), made).0, input, seg, u)
  {
    var t := s.(campaigns := s.campaigns[s.nextId := c], nextId := s.nextId + 1 + |ls|,
                logs := InsertLogs(s.logs, s.nextId + 1, ls), outbox := s.outbox + Requests(seg, ls, s.nextId + 1));
    PersistResult(s, t, seg, c, made, ls);
    LaunchedShape(s, t, input, seg, u, c, ls);
  }

  /** The saved campaign is the DRAFT the route builds. */
  lemma SavedDraft(input: CampaignInput, size: nat, user: Option<nat>)
    requires SaveCampaign(NewCampaignFields(input, size, user)).Some?
    ensures user.Some?
    ensures SaveCampaign(NewCampaignFields(input, size, user)).value
         == Campaign(Strings.Trim(input.name), input.rules, input.template, Draft, size, 0, 0, user.value, [], None)
  {
  }

  /** `PersistSpec` once the campaign and every log are valid. */
  lemma PersistResult(s: State, t: State, seg: seq<Customer>, c: Campaign,
                      made: seq<Option<CommunicationLog>>, ls: seq<CommunicationLog>)
    requires Collect(made) == Some(ls) && |ls| == |seg|
    requires t == s.(campaigns := s.campaigns[s.nextId := c], nextId := s.nextId + 1 + |ls|,
                     logs := InsertLogs(s.logs, s.nextId + 1, ls), outbox := s.outbox + Requests(seg, ls, s.nextId + 1))
    ensures PersistSpec(s, seg, Some(c), made) == (t, 201)
  {
    if |seg| == 0 {
      assert ls == [];
      assert InsertLogs(s.logs, s.nextId + 1, ls) == s.logs;
      assert Requests(seg, ls, s.nextId + 1) == [];
      assert s.outbox + [] == s.outbox;
    } else {
      PersistLogs(s, seg, c, made, ls);
    }
  }

  lemma PersistLogs(s: State, seg: seq<Customer>, c: Campaign, made: seq<Option<CommunicationLog>>, ls: seq<CommunicationLog>)
    requires Collect(made) == Some(ls) && |seg| > 0
    ensures PersistSpec(s, seg, Some(c), made).1 == 201
    ensures PersistSpec(s, seg, Some(c), made).0.customers == s.customers
    ensures PersistSpec(s, seg, Some(c), made).0.orders == s.orders
    ensures PersistSpec(s, seg, Some(c), made).0.campaigns == s.campaigns[s.nextId := c]
    ensures PersistSpec(s, seg, Some(c), made).0.nextId == s.nextId + 1 + |ls|
    ensures PersistSpec(s, seg, Some(c), made).0.logs == InsertLogs(s.logs, s.nextId + 1, ls)
    ensures PersistSpec(s, seg, Some(c), made).0.outbox == s.outbox + Requests(seg, ls, s.nextId + 1)
  {
    PersistTail(s, seg, c, Collect(made), made);
  }

  /** The last branch of `PersistSpec`, with the collected logs as a value. */
  lemma PersistTail(s: State, seg: seq<Customer>, c: Campaign, collected: Option<seq<CommunicationLog>>,
                    made: seq<Option<CommunicationLog>>)
    requires collected == Collect(made) && collected.Some? && |seg| > 0
    ensures var ls := collected.value;
      PersistSpec(s, seg, Some(c), made)
      == (State(s.customers, s.orders, s.campaigns[s.nextId := c], InsertLogs(s.logs, s.nextId + 1, ls),
                s.outbox + Requests(seg, ls, s.nextId + 1), s.nextId + 1 + |ls|), 201)
  {
  }

  lemma LaunchedShape(s: State, t: State, input: CampaignInput, seg: seq<Customer>, u: nat, c: Campaign, ls: seq<CommunicationLog>)
    requires (forall k :: k in s.logs ==> k < s.nextId) && IdsDistinct(seg)
    requires c == Campaign(Strings.Trim(input.name), input.rules, input.template, Draft, |seg|, 0, 0, u, [], None)
    requires |ls| == |seg| && forall i :: 0 <= i < |seg| ==> ls[i] == PendingLog(s.nextId, input.template, u, seg[i])
    requires t.customers == s.customers && t.orders == s.orders
    requires t.campaigns == s.campaigns[s.nextId := c] && t.nextId == s.nextId + 1 + |ls|
    requires t.logs == InsertLogs(s.logs, s.nextId + 1, ls) && t.outbox == s.outbox + Requests(seg, ls, s.nextId + 1)
    ensures Launched(s, t, input, seg, u)
  {
    LogsShape(s, t, input, seg, u, ls);
    OutboxShape(s, t, input, seg, u, ls);
  }

  lemma LogsShape(s: State, t: State, input: CampaignInput, seg: seq<Customer>, u: nat, ls: seq<CommunicationLog>)
    requires (forall k :: k in s.logs ==> k < s.nextId) && t.logs == InsertLogs(s.logs, s.nextId + 1, ls)
    requires |ls| == |seg| && forall i :: 0 <= i < |seg| ==> ls[i] == PendingLog(s.nextId, input.template, u, seg[i])
    ensures LogsWritten(s, t, input, seg, u)
  {
    InsertedKeys(s, t, ls);
    InsertedKept(s, t, ls);
    InsertedAt(s, t, ls);
  }

  lemma InsertedKeys(s: State, t: State, ls: seq<CommunicationLog>)
    requires t.logs == InsertLogs(s.logs, s.nextId + 1, ls)
    ensures forall k :: k in t.logs <==> k in s.logs || s.nextId < k <= s.nextId + |ls|
  {
    InsertLogsContents(s.logs, s.nextId + 1, ls);
  }

  lemma InsertedKept(s: State, t: State, ls: seq<CommunicationLog>)
    requires (forall k :: k in s.logs ==> k < s.nextId) && t.logs == InsertLogs(s.logs, s.nextId + 1, ls)
    ensures forall k :: k in s.logs ==> k in t.logs && t.logs[k] == s.logs[k]
  {
    InsertLogsContents(s.logs, s.nextId + 1, ls);
  }

  lemma InsertedAt(s: State, t: State, ls: seq<CommunicationLog>)
    requires t.logs == InsertLogs(s.logs, s.nextId + 1, ls)
    ensures forall i :: 0 <= i < |ls| ==> s.nextId + 1 + i in t.logs && t.logs[s.nextId + 1 + i] == ls[i]
  {
    InsertLogsContents(s.logs, s.nextId + 1, ls);
    forall i | 0 <= i < |ls|
      ensures s.nextId + 1 + i in t.logs && t.logs[s.nextId + 1 + i] == ls[i]
    {
      var k := s.nextId + 1 + i;
      assert k - (s.nextId + 1) == i;
    }
  }

  lemma OutboxShape(s: State, t: State, input: CampaignInput, seg: seq<Customer>, u: nat, ls: seq<CommunicationLog>)
    requires IdsDistinct(seg) && t.outbox == s.outbox + Requests(seg, ls, s.nextId + 1)
    requires |ls| == |seg| && forall i :: 0 <= i < |seg| ==> ls[i] == PendingLog(s.nextId, input.template, u, seg[i])
    ensures RequestsSent(s, t, input, seg)
  {
    var r := Requests(seg, ls, s.nextId + 1);
    RequestsContents(seg, ls, s.nextId + 1);
    assert t.outbox[..|s.outbox|] == s.outbox;
    forall i | 0 <= i < |seg|
      ensures t.outbox[|s.outbox| + i] == VendorRequest(seg[i].id, seg[i].email, Personalize(input.template, seg[i]), s.nextId + 1 + i)
    {
      assert t.outbox[|s.outbox| + i] == r[i];
      assert ls[i].message == Personalize(input.template, seg[i]);
    }
  }

  /** The audience the route selects: while the compiled filter is not
      `{}` it is the rule set's audience; a truly empty rule set targets
      every customer (its audience too); a non-empty rule set that compiles
      to `{}` targets nobody. With the source's text patterns the first case
      needs the patterns to be compiled as intended, see `GroupSound`. */
  lemma SegmentMeaning(g: RuleGroup, cs: seq<Customer>, env: Env)
    requires ParseGroup(g, env, Intended).Ok? && TreeSafe(g, env, Intended) && TreeCasts(g, env)
    ensures CastQuery(ParseGroup(g, env, Intended).value, env).Ok?
    ensures var q := CastQuery(ParseGroup(g, env, Intended).value, env).value;
      && ((!q.MatchAll? || IsTrulyEmpty(g)) ==> Segment(g, q, cs) == Audience(g, cs, env))
      && ((q.MatchAll? && !IsTrulyEmpty(g)) ==> Segment(g, q, cs) == [] && Audience(g, cs, env) == cs)
  {
    CompilesIff(g, env, Intended);
    GroupSound(g, env, Intended, Customer(0, "", "", 0, 0, None));
    var f := ParseGroup(g, env, Intended).value;
    var q := CastQuery(f, env).value;
    forall c | true
      ensures Matches(q, c) <==> GroupHolds(g, c, env)
    {
      GroupSound(g, env, Intended, c);
    }
    SelectAgrees(q, g, cs, env);
    if q.MatchAll? {
      SelectAll(cs);
    }
  }

  /** The preview and the campaign agree on a rule set whose filter is not
      `{}`, and disagree on the other two: a truly empty rule set previews 0
      but targets every customer, and a non-empty one that compiles to `{}`
      previews every customer but targets nobody. */
  lemma PreviewVersusCampaign(rules: RawGroup, cs: seq<Customer>, env: Env, mode: TextPatterns)
    requires ValidateGroup(rules).Some? && ParseGroup(ValidateGroup(rules).value, env, mode).Ok?
    requires CastQuery(ParseGroup(ValidateGroup(rules).value, env, mode).value, env).Ok?
    ensures var g := ValidateGroup(rules).value;
            var f := ParseGroup(g, env, mode).value;
            var p := PreviewSpec(rules, cs, env, mode);
            var seg := Segment(g, CastQuery(f, env).value, cs);
      && (!f.MatchAll? ==> p == Counted(|seg|, f))
      && (IsTrulyEmpty(g) ==> p == NoRules && seg == cs)
      && (f.MatchAll? && !IsTrulyEmpty(g) ==> p == AllCustomers(|cs|) && seg == [])
  {
    var g := ValidateGroup(rules).value;
    CompilesIff(g, env, mode);
    CastKeepsEmpty(ParseGroup(g, env, mode).value, env);
    if IsTrulyEmpty(g) {
      EmptyGroupMatchesAll(g, env, mode);
      SelectAll(cs);
    }
  }

  /** Every way the route can answer: 401 exactly without a session, 400
      exactly for a body the schema refuses, 500 exactly when the rules do
      not compile, their filter does not cast, or the campaign cannot be saved (a name that is blank once
      trimmed, or a session without a user id), 201 otherwise; and every
      answer but 201 leaves the store as it was. */
  lemma CreateOutcomes(s: State, session: Option<Option<nat>>, body: CampaignBody, env: Env, mode: TextPatterns)
    requires ValidState(s)
    ensures var (s', st) := CreateSpec(s, session, body, env, mode);
      && st in {201, 400, 401, 500}
      && (st == 401 <==> session.None?)
      && (st == 400 <==> session.Some? && ParseCampaignBody(body).None?)
      && (st == 500 <==>
            (session.Some? && ParseCampaignBody(body).Some? &&
             (!TreeCompiles(ParseCampaignBody(body).value.rules, env)
              || !TreeCasts(ParseCampaignBody(body).value.rules, env)
              || Strings.Trim(ParseCampaignBody(body).value.name) == "" || session.value.None?)))
      && (st != 201 ==> s' == s)
  {
    if session.Some? && ParseCampaignBody(body).Some? {
      var input := ParseCampaignBody(body).value;
      CompilesIff(input.rules, env, mode);
      if TreeCompiles(input.rules, env) {
        TreeCastsIff(input.rules, env, mode);
        var f := ParseGroup(input.rules, env, mode).value;
        if TreeCasts(input.rules, env) {
          LaunchOutcome(s, input, CastQuery(f, env).value, session.value);
        }
      }
    }
  }

  /** Once the rules have compiled: 500 exactly when the campaign document
      is refused (a blank name or no user id), with the store unchanged,
      and 201 otherwise. */
  lemma LaunchOutcome(s: State, input: CampaignInput, f: Filter, user: Option<nat>)
    requires ValidState(s) && |input.template| >= 5
    ensures var (s', st) := LaunchSpec(s, input, f, user);
      && (st == 201 || st == 500)
      && (st == 500 <==> Strings.Trim(input.name) == "" || user.None?)
      && (st != 201 ==> s' == s)
  {
    var seg := Segment(input.rules, f, s.customers);
    if SaveCampaign(NewCampaignFields(input, |seg|, user)).Some? {
      SegmentKeepsIdsDistinct(s, input.rules, f);
      PersistEffect(s, input, seg, user);
    }
  }

  /** The segment has distinct customer ids. */
  lemma SegmentKeepsIdsDistinct(s: State, rules: RuleGroup, f: Filter)
    requires ValidState(s)
    ensures IdsDistinct(Segment(rules, f, s.customers))
  {
    CustomersDistinct(s);
    SelectKeepsIdsDistinct(f, s.customers);
    SelectKeepsIdsDistinct(MatchAll, s.customers);
  }

  lemma CustomersDistinct(s: State)
    requires ValidState(s)
    ensures IdsDistinct(s.customers)
  {
  }

  /** A successful creation stores exactly what `Launched` describes, for
      the validated body, the segment its compiled rules select, and the
      session's user. */
  lemma CreateSuccess(s: State, session: Option<Option<nat>>, body: CampaignBody, env: Env, mode: TextPatterns)
    requires ValidState(s) && CreateSpec(s, session, body, env, mode).1 == 201
    ensures session.Some? && session.value.Some? && ParseCampaignBody(body).Some?
    ensures var input := ParseCampaignBody(body).value;
      && ParseGroup(input.rules, env, mode).Ok?
      && CastQuery(ParseGroup(input.rules, env, mode).value, env).Ok?
      && Launched(s, CreateSpec(s, session, body, env, mode).0, input,
                  Segment(input.rules, CastQuery(ParseGroup(input.rules, env, mode).value, env).value, s.customers),
                  session.value.value)
  {
    var input := ParseCampaignBody(body).value;
    var q := CastQuery(ParseGroup(input.rules, env, mode).value, env).value;
    SegmentKeepsIdsDistinct(s, input.rules, q);
    PersistEffect(s, input, Segment(input.rules, q, s.customers), session.value);
  }

  /** Creation keeps the store valid. */
  lemma CreatePreservesValid(s: State, session: Option<Option<nat>>, body: CampaignBody, env: Env, mode: TextPatterns)
    requires ValidState(s)
    ensures ValidState(CreateSpec(s, session, body, env, mode).0)
  {
    CreateOutcomes(s, session, body, env, mode);
    if CreateSpec(s, session, body, env, mode).1 == 201 {
      CreateSuccess(s, session, body, env, mode);
      var input := ParseCampaignBody(body).value;
      var seg := Segment(input.rules, CastQuery(ParseGroup(input.rules, env, mode).value, env).value, s.customers);
      LaunchedKeepsValid(s, CreateSpec(s, session, body, env, mode).0, input, seg, session.value.value);
    }
  }

  /** A successful creation keeps the store valid. */
  lemma LaunchedKeepsValid(s: State, t: State, input: CampaignInput, seg: seq<Customer>, u: nat)
    requires ValidState(s) && |input.template| >= 5 && Strings.Trim(input.name) != ""
    requires forall x :: x in seg ==> x in s.customers
    requires Launched(s, t, input, seg, u)
    ensures ValidState(t)
  {
    Strings.TrimIsTrimmed(input.name);
    assert forall k :: k in t.campaigns ==> k < t.nextId && ValidCampaign(t.campaigns[k]);
    LaunchedLogsValid(s, t, input, seg, u);
  }

  lemma LaunchedLogsValid(s: State, t: State, input: CampaignInput, seg: seq<Customer>, u: nat)
    requires ValidState(s) && |input.template| >= 5
    requires forall x :: x in seg ==> x in s.customers
    requires LogsWritten(s, t, input, seg, u) && t.nextId == s.nextId + 1 + |seg|
    ensures forall k :: k in t.logs ==> k < t.nextId && ValidLog(t.logs[k])
  {
    forall k | k in t.logs
      ensures k < t.nextId && ValidLog(t.logs[k])
    {
      if k !in s.logs {
        var i := k - s.nextId - 1;
        assert 0 <= i < |seg| && k == s.nextId + 1 + i;
        assert seg[i] in s.customers;
        assert ValidCustomer(seg[i]);
      }
    }
  }
}
