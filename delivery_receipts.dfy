/** The vendor's delivery-receipt webhook `POST /api/webhooks/delivery-receipts`:
    check the receipt, update the communication log it names, then count the
    outcome on the log's campaign and mark the campaign COMPLETED once every
    message of its audience has been counted. */
module DeliveryReceipts {
  import opened Wrappers
  import opened Runtime
  import opened CampaignModel
  import opened CommunicationLog
  import opened Db
  import Strings

  /** The posted body; each field as it arrived in the JSON. */
  datatype ReceiptBody = ReceiptBody(
    communicationLogId: JsonValue,
    status: JsonValue,
    vendorMessageId: JsonValue,
    timestamp: JsonValue,
    failureReason: JsonValue)

  const UnknownFailure := "Unknown failure from vendor"

  // ---- What Mongoose makes of the posted values ----

  /** `ObjectId.isValid(id)` and the log id it names. */
  function LogIdOf(j: JsonValue, env: Env): Option<nat> {
    if j.Str? then env.objectIdOf(j.s) else None
  }

  /** The cast of a value assigned to a `String` path: a string is kept, a
      number or boolean is written out, anything else does not cast. */
  function StringCast(j: JsonValue): (r: Option<string>)
    ensures j.Str? ==> r == Some(j.s)
    ensures r.None? <==> !(j.Str? || j.Number? || j.Bool?)
  {
    match j
    case Str(s) => Some(s)
    case Number(n) => Some(Strings.DecimalString(n))
    case Bool(b) => Some(if b then "true" else "false")
    case _ => None
  }

  /** `new Date(timestamp)`: a date string, a time value, or a boolean read
      as the time value 1 or 0; None is an Invalid Date, which does not cast
      to a `Date` path. */
  function DateCast(j: JsonValue, env: Env): (r: Option<int>)
    ensures j.Bool? ==> r == Some(if j.b then 1 else 0)
    ensures j.Number? ==> (r.Some? <==> -MaxTimeValue <= j.n <= MaxTimeValue) && (r.Some? ==> r.value == j.n)
    ensures j.Str? ==> r == env.dateOf(j.s)
  {
    match j
    case Str(s) => env.dateOf(s)
    case Number(n) => DateOfNumber(n)
    case Bool(b) => Some(if b then 1 else 0)
    case _ => None
  }

  /** The status path's cast and enum check: only one of the six enum strings
      is accepted (any other value casts to a string outside the enum, or
      does not cast). */
  function StatusOf(j: JsonValue): (r: Option<MessageStatus>)
    ensures r.Some? <==> j.Str? && exists m :: StatusName(m) == j.s
    ensures r.Some? ==> StatusName(r.value) == j.s
  {
    if j.Str? then
      var r := ParseStatus(j.s);
      assert r.Some? ==> StatusName(r.value) == j.s;
      r
    else None
  }

  /** The statuses counted on the campaign. */
  predicate IsSuccess(m: MessageStatus) {
    m == Sent || m == Delivered
  }

  predicate IsCounted(m: MessageStatus) {
    IsSuccess(m) || m == MessageStatus.Failed
  }

  /** `failureReason || "Unknown failure from vendor"`, then the `String` cast. */
  function ReasonOf(j: JsonValue): (r: Option<string>)
    ensures !Truthy(j) ==> r == Some(UnknownFailure)
    ensures Truthy(j) ==> r == StringCast(j)
  {
    if Truthy(j) then StringCast(j) else Some(UnknownFailure)
  }

  // ---- The log update ----

  /** The log as `log.save()` stores it, or None when saving throws: the
      status and vendor id are always assigned; SENT and DELIVERED set the
      sent time and clear the failure; FAILED sets the failure time and
      reason and clears the sent time; any other status keeps all three. */
  function Received(l: CommunicationLog, b: ReceiptBody, env: Env): (r: Option<CommunicationLog>)
    ensures r.None? <==>
      || StatusOf(b.status).None?
      || StringCast(b.vendorMessageId).None?
      || (IsCounted(StatusOf(b.status).value) && DateCast(b.timestamp, env).None?)
      || (StatusOf(b.status) == Some(MessageStatus.Failed) && ReasonOf(b.failureReason).None?)
  {
    match StatusOf(b.status)
    case None => None
    case Some(m) =>
      match StringCast(b.vendorMessageId)
      case None => None
      case Some(vid) =>
        var l1 := l.(status := m, vendorMessageId := Some(vid));
        if IsSuccess(m) then
          match DateCast(b.timestamp, env)
          case None => None
          case Some(t) => Some(l1.(sentAt := Some(t), failedAt := None, failureReason := None))
        else if m == MessageStatus.Failed then
          match DateCast(b.timestamp, env)
          case None => None
          case Some(t) =>
            match ReasonOf(b.failureReason)
            case None => None
            case Some(why) => Some(l1.(failedAt := Some(t), failureReason := Some(why), sentAt := None))
        else Some(l1)
  }

  // ---- The campaign update ----

  /** `$inc` of the counter the status names. */
  function Increment(c: Campaign, m: MessageStatus): Campaign {
    if m == MessageStatus.Failed then c.(failedCount := c.failedCount + 1) else c.(sentCount := c.sentCount + 1)
  }

  /** The re-read campaign is marked COMPLETED when its audience is known,
      every message has been counted, and it is not COMPLETED already. */
  predicate CompletesNow(c: Campaign) {
    c.audienceSize > 0 && c.audienceSize == c.sentCount + c.failedCount && c.status != Completed
  }

  function Finish(c: Campaign): Campaign {
    if CompletesNow(c) then c.(status := Completed) else c
  }

  /** The campaign store after a saved log of status `m` for campaign `cid`:
      untouched for a status that is not counted or a campaign that does not
      exist (the update matches nothing and the re-read finds nothing). */
  function Tally(cs: map<nat, Campaign>, cid: nat, m: MessageStatus): map<nat, Campaign> {
    if IsCounted(m) && cid in cs then cs[cid := Finish(Increment(cs[cid], m))] else cs
  }

  // ---- The route ----

  /** The outcome of one receipt: the new store and the response status. */
  function ReceiptSpec(s: State, b: ReceiptBody, env: Env): (State, int) {
    if !Truthy(b.communicationLogId) || !Truthy(b.status) || !Truthy(b.vendorMessageId) || !Truthy(b.timestamp) then (s, 400)
    else match LogIdOf(b.communicationLogId, env)
      case None => (s, 400)
      case Some(id) =>
        if id !in s.logs then (s, 404)
        else match Received(s.logs[id], b, env)
          case None => (s, 500)
          case Some(l) =>
            (State(s.customers, s.orders, Tally(s.campaigns, l.campaignId, l.status), s.logs[id := l], s.outbox, s.nextId), 200)
  }

  /** `POST /api/webhooks/delivery-receipts`. */
  method ReceiveReceipt(store: Store, b: ReceiptBody, env: Env) returns (status: int)
    modifies store
    ensures (store.Snapshot(), status) == ReceiptSpec(old(store.Snapshot()), b, env)
  {
    if !Truthy(b.communicationLogId) || !Truthy(b.status) || !Truthy(b.vendorMessageId) || !Truthy(b.timestamp) {
      return 400;
    }
    var id := LogIdOf(b.communicationLogId, env);
    if id.None? {
      return 400;
    }
    if id.value !in store.logs {
      return 404;
    }
    var saved := UpdateLog(store.logs[id.value], b, env);
    if saved.None? {
      return 500;
    }
    var log := saved.value;
    store.logs := store.logs[id.value := log];
    if IsCounted(log.status) {
      CountOutcome(store, log.campaignId, log.status);
    }
    return 200;
  }

  /** The assignments to the log's fields, as the route makes them, and the
      checks `save()` applies. */
  method UpdateLog(l: CommunicationLog, b: ReceiptBody, env: Env) returns (r: Option<CommunicationLog>)
    ensures r == Received(l, b, env)
  {
    var status := StatusOf(b.status);
    var vendorId := StringCast(b.vendorMessageId);
    if status.None? || vendorId.None? {
      return None;
    }
    var log := l;
    log := log.(status := status.value);
    log := log.(vendorMessageId := Some(vendorId.value));
    var parsed := DateCast(b.timestamp, env);
    if status.value == Sent || status.value == Delivered {
      if parsed.None? {
        return None;
      }
      log := log.(sentAt := Some(parsed.value));
      log := log.(failedAt := None);
      log := log.(failureReason := None);
    } else if status.value == MessageStatus.Failed {
      if parsed.None? {
        return None;
      }
      var reason := if Truthy(b.failureReason) then b.failureReason else JsonValue.Str(UnknownFailure);
      var why := StringCast(reason);
      if why.None? {
        return None;
      }
      log := log.(failedAt := Some(parsed.value));
      log := log.(failureReason := Some(why.value));
      log := log.(sentAt := None);
    }
    r := Some(log);
  }

  /** The `$inc` on the campaign, the re-read, and the COMPLETED update. */
  method CountOutcome(store: Store, cid: nat, m: MessageStatus)
    requires IsCounted(m)
    modifies store
    ensures store.campaigns == Tally(old(store.campaigns), cid, m)
    ensures store.customers == old(store.customers) && store.orders == old(store.orders) && store.logs == old(store.logs)
    ensures store.outbox == old(store.outbox) && store.nextId == old(store.nextId)
  {
    if cid in store.campaigns {
      var c := store.campaigns[cid];
      if m == MessageStatus.Failed {
        c := c.(failedCount := c.failedCount + 1);
      } else {
        c := c.(sentCount := c.sentCount + 1);
      }
      store.campaigns := store.campaigns[cid := c];
    }
    if cid in store.campaigns {
      var campaign := store.campaigns[cid];
      if campaign.audienceSize > 0 && campaign.audienceSize == campaign.sentCount + campaign.failedCount {
        if campaign.status != Completed {
          store.campaigns := store.campaigns[cid := campaign.(status := Completed)];
        }
      }
    }
  }

  // ---- Properties of the route ----

  /** A receipt missing a required field, naming a malformed id or an unknown
      log, or failing to save changes nothing; the statuses are exactly 400,
      404, 500 and 200. */
  lemma RejectionsChangeNothing(s: State, b: ReceiptBody, env: Env)
    ensures var (s', status) := ReceiptSpec(s, b, env);
      && status in {200, 400, 404, 500}
      && (status != 200 ==> s' == s)
      && (status == 400 <==>
            || !Truthy(b.communicationLogId) || !Truthy(b.status) || !Truthy(b.vendorMessageId) || !Truthy(b.timestamp)
            || LogIdOf(b.communicationLogId, env).None?)
      && (status == 404 <==> status != 400 && LogIdOf(b.communicationLogId, env).value !in s.logs)
      && (status == 500 <==>
            (status != 400 && status != 404 && Received(s.logs[LogIdOf(b.communicationLogId, env).value], b, env).None?))
  {
  }

  /** The receipt is accepted (200); its log id is then well formed. */
  predicate Accepted(s: State, b: ReceiptBody, env: Env) {
    ReceiptSpec(s, b, env).1 == 200
  }

  function AcceptedId(s: State, b: ReceiptBody, env: Env): nat
    requires Accepted(s, b, env)
  {
    LogIdOf(b.communicationLogId, env).value
  }

  /** An accepted receipt stores its status and vendor id on the log it names,
      sets the delivery fields as its status says, keeps the log's campaign,
      customer, message and creator, and changes no other log. */
  lemma AcceptedUpdatesLog(s: State, b: ReceiptBody, env: Env)
    requires Accepted(s, b, env)
    ensures var s' := ReceiptSpec(s, b, env).0;
            var id := AcceptedId(s, b, env);
            var old_ := s.logs[id];
            var l := s'.logs[id];
            var m := StatusOf(b.status).value;
      && id in s.logs && s'.logs.Keys == s.logs.Keys
      && (forall k :: k in s.logs && k != id ==> s'.logs[k] == s.logs[k])
      && StatusName(l.status) == b.status.s
      && l.vendorMessageId == StringCast(b.vendorMessageId)
      && l.campaignId == old_.campaignId && l.customerId == old_.customerId
      && l.message == old_.message && l.createdBy == old_.createdBy && l.deliveredAt == old_.deliveredAt
      && (IsSuccess(m) ==> l.sentAt == DateCast(b.timestamp, env) && l.failedAt.None? && l.failureReason.None?)
      && (m == MessageStatus.Failed ==>
            && l.failedAt == DateCast(b.timestamp, env) && l.sentAt.None?
            && l.failureReason == Some(if Truthy(b.failureReason) then StringCast(b.failureReason).value else UnknownFailure))
      && (!IsCounted(m) ==> l.sentAt == old_.sentAt && l.failedAt == old_.failedAt && l.failureReason == old_.failureReason)
      && s'.customers == s.customers && s'.orders == s.orders && s'.outbox == s.outbox && s'.nextId == s.nextId
  {
  }

  /** A counted status increments exactly one counter of the log's campaign
      by exactly one; nothing else of that campaign changes except possibly
      its status, which can only become COMPLETED. */
  lemma CountedReceiptIncrements(s: State, b: ReceiptBody, env: Env)
    requires Accepted(s, b, env)
    requires s.logs[AcceptedId(s, b, env)].campaignId in s.campaigns
    requires IsCounted(StatusOf(b.status).value)
    ensures var s' := ReceiptSpec(s, b, env).0;
            var cid := s.logs[AcceptedId(s, b, env)].campaignId;
            var c := s.campaigns[cid];
            var c' := s'.campaigns[cid];
            var m := StatusOf(b.status).value;
      && s'.campaigns.Keys == s.campaigns.Keys
      && (IsSuccess(m) ==> c'.sentCount == c.sentCount + 1 && c'.failedCount == c.failedCount)
      && (m == MessageStatus.Failed ==> c'.failedCount == c.failedCount + 1 && c'.sentCount == c.sentCount)
      && c'.audienceSize == c.audienceSize && c'.name == c.name && c'.audienceRules == c.audienceRules
      && c'.messageTemplate == c.messageTemplate && c'.createdBy == c.createdBy && c'.tags == c.tags
      && (c'.status == c.status || c'.status == Completed)
      && (forall k :: k in s.campaigns && k != cid ==> s'.campaigns[k] == s.campaigns[k])
  {
    var id := AcceptedId(s, b, env);
    var l := Received(s.logs[id], b, env).value;
    assert l.campaignId == s.logs[id].campaignId && l.status == StatusOf(b.status).value;
  }

  /** After the increment the campaign is COMPLETED exactly when it already
      was, or its audience is not empty and every message of it is counted. */
  lemma CompletionIff(s: State, b: ReceiptBody, env: Env)
    requires Accepted(s, b, env)
    requires s.logs[AcceptedId(s, b, env)].campaignId in s.campaigns
    requires IsCounted(StatusOf(b.status).value)
    ensures var c' := ReceiptSpec(s, b, env).0.campaigns[s.logs[AcceptedId(s, b, env)].campaignId];
            var c := s.campaigns[s.logs[AcceptedId(s, b, env)].campaignId];
      c'.status == Completed <==>
        c.status == Completed || (c'.audienceSize > 0 && c'.audienceSize == c'.sentCount + c'.failedCount)
  {
    CountedReceiptIncrements(s, b, env);
  }

  /** A receipt whose status is not counted, or whose log's campaign does
      not exist, changes no campaign. */
  lemma UncountedChangesNoCampaign(s: State, b: ReceiptBody, env: Env)
    requires Accepted(s, b, env)
    requires !IsCounted(StatusOf(b.status).value) || s.logs[AcceptedId(s, b, env)].campaignId !in s.campaigns
    ensures ReceiptSpec(s, b, env).0.campaigns == s.campaigns
  {
    var id := AcceptedId(s, b, env);
    var l := Received(s.logs[id], b, env).value;
    assert l.campaignId == s.logs[id].campaignId && l.status == StatusOf(b.status).value;
  }

  /** No receipt moves a campaign out of COMPLETED. */
  lemma CompletedIsFinal(s: State, b: ReceiptBody, env: Env, k: nat)
    requires k in s.campaigns && s.campaigns[k].status == Completed
    ensures k in ReceiptSpec(s, b, env).0.campaigns && ReceiptSpec(s, b, env).0.campaigns[k].status == Completed
  {
  }

  /** Receipts are not deduplicated: the same counted receipt posted twice is
      accepted twice and counts twice. */
  lemma {:induction false} NoDeduplication(s: State, b: ReceiptBody, env: Env)
    requires Accepted(s, b, env)
    requires s.logs[AcceptedId(s, b, env)].campaignId in s.campaigns
    requires IsCounted(StatusOf(b.status).value)
    ensures var s1 := ReceiptSpec(s, b, env).0;
            var s2 := ReceiptSpec(s1, b, env);
            var cid := s.logs[AcceptedId(s, b, env)].campaignId;
            var m := StatusOf(b.status).value;
      && s2.1 == 200
      && (IsSuccess(m) ==> s2.0.campaigns[cid].sentCount == s.campaigns[cid].sentCount + 2)
      && (m == MessageStatus.Failed ==> s2.0.campaigns[cid].failedCount == s.campaigns[cid].failedCount + 2)
  {
    var s1 := ReceiptSpec(s, b, env).0;
    var id := AcceptedId(s, b, env);
    AcceptedUpdatesLog(s, b, env);
    CountedReceiptIncrements(s, b, env);
    SavedAgain(s.logs[id], s1.logs[id], b, env);
    assert Accepted(s1, b, env) && AcceptedId(s1, b, env) == id;
    CountedReceiptIncrements(s1, b, env);
  }

  /** A log a receipt was saved onto takes the same receipt again. */
  lemma SavedAgain(l: CommunicationLog, l1: CommunicationLog, b: ReceiptBody, env: Env)
    requires Received(l, b, env) == Some(l1)
    ensures Received(l1, b, env).Some? && Received(l1, b, env).value.campaignId == l.campaignId
  {
  }

  /** A receipt keeps the store valid: the saved log keeps its message, and
      the counters only grow. */
  lemma ReceiptPreservesValid(s: State, b: ReceiptBody, env: Env)
    requires ValidState(s)
    ensures ValidState(ReceiptSpec(s, b, env).0)
  {
    if Accepted(s, b, env) {
      var id := AcceptedId(s, b, env);
      var l := Received(s.logs[id], b, env).value;
      var s' := ReceiptSpec(s, b, env).0;
      assert l.message == s.logs[id].message;
      TallyKeepsValid(s.campaigns, l.campaignId, l.status, s.nextId);
      assert s' == State(s.customers, s.orders, Tally(s.campaigns, l.campaignId, l.status), s.logs[id := l], s.outbox, s.nextId);
    }
  }

  lemma TallyKeepsValid(cs: map<nat, Campaign>, cid: nat, m: MessageStatus, next: nat)
    requires forall id :: id in cs ==> id < next && ValidCampaign(cs[id])
    ensures forall id :: id in Tally(cs, cid, m) ==> id < next && ValidCampaign(Tally(cs, cid, m)[id])
  {
  }
}
