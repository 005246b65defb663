/** One message of a campaign to one customer (`ICommunicationLog`) and the
    schema's status enum, default and required fields. */
module CommunicationLog {
  import opened Wrappers

  datatype MessageStatus = Pending | Sent | Failed | Delivered | Opened | Clicked

  /** The enum string stored for each status. */
  function StatusName(m: MessageStatus): string {
    match m
    case Pending => "PENDING"
    case Sent => "SENT"
    case Failed => "FAILED"
    case Delivered => "DELIVERED"
    case Opened => "OPENED"
    case Clicked => "CLICKED"
  }

  /** The schema's enum check: a string is a status exactly when it is one of
      the six enum strings. */
  function ParseStatus(s: string): (r: Option<MessageStatus>)
    ensures r.Some? ==> StatusName(r.value) == s
    ensures r.None? ==> forall m :: StatusName(m) != s
  {
    if s == "PENDING" then Some(Pending)
    else if s == "SENT" then Some(Sent)
    else if s == "FAILED" then Some(Failed)
    else if s == "DELIVERED" then Some(Delivered)
    else if s == "OPENED" then Some(Opened)
    else if s == "CLICKED" then Some(Clicked)
    else None
  }

  lemma StatusRoundTrip(m: MessageStatus)
    ensures ParseStatus(StatusName(m)) == Some(m)
  {
  }

  /** A stored log. The ids are store ids; timestamps are ms time values. */
  datatype CommunicationLog = CommunicationLog(
    campaignId: nat,
    customerId: nat,
    message: string,
    status: MessageStatus,
    vendorMessageId: Option<string>,
    sentAt: Option<int>,
    failedAt: Option<int>,
    failureReason: Option<string>,
    deliveredAt: Option<int>,
    createdBy: nat)

  /** The fields given when a log document is created. */
  datatype LogFields = LogFields(
    campaignId: Option<nat>,
    customerId: Option<nat>,
    message: Option<string>,
    status: Option<MessageStatus>,
    createdBy: Option<nat>)

  predicate ValidLog(l: CommunicationLog) {
    l.message != ""
  }

  /** Creating and validating a log document: the four required fields must be
      present (the message non-empty), the status defaults to PENDING, and the
      optional vendor id, timestamps and reason start out absent. */
  function NewLog(f: LogFields): (r: Option<CommunicationLog>)
    ensures r.Some? <==> f.campaignId.Some? && f.customerId.Some? && f.message.Some? && f.message.value != "" && f.createdBy.Some?
    ensures r.Some? ==> ValidLog(r.value)
    ensures r.Some? ==> r.value.status == f.status.GetOr(Pending)
    ensures r.Some? ==> r.value.campaignId == f.campaignId.value && r.value.customerId == f.customerId.value
    ensures r.Some? ==> r.value.message == f.message.value && r.value.createdBy == f.createdBy.value
    ensures r.Some? ==> r.value.vendorMessageId.None? && r.value.sentAt.None? && r.value.failedAt.None?
    ensures r.Some? ==> r.value.failureReason.None? && r.value.deliveredAt.None?
  {
    if f.campaignId.None? || f.customerId.None? || f.message.None? || f.createdBy.None? || f.message.value == "" then None
    else Some(CommunicationLog(f.campaignId.value, f.customerId.value, f.message.value,
                               f.status.GetOr(Pending), None, None, None, None, None, f.createdBy.value))
  }

  /** A log store: every log valid. Nothing about campaign and customer pairs. */
  predicate ValidLogs(logs: map<nat, CommunicationLog>) {
    forall id :: id in logs ==> ValidLog(logs[id])
  }

  /** The indexes on `campaignId` and `customerId` are not unique: a valid
      store can hold two logs for the same campaign and customer. */
  lemma DuplicatePairAllowed(l: CommunicationLog)
    requires ValidLog(l)
    ensures exists logs: map<nat, CommunicationLog>, i: nat, j: nat ::
      ValidLogs(logs) && i in logs && j in logs && i != j
      && logs[i].campaignId == logs[j].campaignId && logs[i].customerId == logs[j].customerId
  {
    var logs := map[0 := l, 1 := l];
    assert ValidLogs(logs) && 0 in logs && 1 in logs;
  }
}
