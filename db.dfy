/** The document store the routes read and write, in memory: customers and
    orders in insertion order, campaigns and communication logs by id, the
    vendor requests issued so far, and the next unused document id. */
module Db {
  import opened Wrappers
  import opened CampaignModel
  import opened CommunicationLog
  import opened Records

  /** One call to the vendor's send endpoint, as campaign creation issues it. */
  datatype VendorRequest = VendorRequest(customerId: nat, customerEmail: string, message: string, communicationLogId: nat)

  datatype State = State(
    customers: seq<Customer>,
    orders: seq<Order>,
    campaigns: map<nat, Campaign>,
    logs: map<nat, CommunicationLog>,
    outbox: seq<VendorRequest>,
    nextId: nat)

  /** What the schemas and unique indexes guarantee of the stored documents:
      every document valid, customer ids and emails unique, order ids unique,
      and every id already handed out. */
  predicate ValidState(s: State) {
    && (forall i :: 0 <= i < |s.customers| ==> ValidCustomer(s.customers[i]) && s.customers[i].id < s.nextId)
    && (forall i, j :: 0 <= i < j < |s.customers| ==>
          s.customers[i].id != s.customers[j].id && s.customers[i].email != s.customers[j].email)
    && (forall i :: 0 <= i < |s.orders| ==> ValidOrder(s.orders[i]))
    && (forall i, j :: 0 <= i < j < |s.orders| ==> s.orders[i].orderId != s.orders[j].orderId)
    && (forall id :: id in s.campaigns ==> id < s.nextId && ValidCampaign(s.campaigns[id]))
    && (forall id :: id in s.logs ==> id < s.nextId && ValidLog(s.logs[id]))
  }

  class Store {
    var customers: seq<Customer>
    var orders: seq<Order>
    var campaigns: map<nat, Campaign>
    var logs: map<nat, CommunicationLog>
    var outbox: seq<VendorRequest>
    var nextId: nat

    function Snapshot(): State
      reads this
    {
      State(customers, orders, campaigns, logs, outbox, nextId)
    }

    predicate Valid()
      reads this
    {
      ValidState(Snapshot())
    }

    constructor ()
      ensures Snapshot() == State([], [], map[], map[], [], 0)
      ensures Valid()
    {
      customers := [];
      orders := [];
      campaigns := map[];
      logs := map[];
      outbox := [];
      nextId := 0;
    }
  }

  /** The two ways the routes look a customer up: by id and by email. */
  datatype CustomerKey = ById(id: nat) | ByEmail(email: string)

  predicate HasKey(c: Customer, key: CustomerKey) {
    match key
    case ById(id) => c.id == id
    case ByEmail(email) => c.email == email
  }

  /** The store's lookup of one customer: the index of the first customer
      with that key, or None when no customer has it. */
  function FindCustomer(cs: seq<Customer>, key: CustomerKey): (r: Option<nat>)
    ensures r.Some? ==> r.value < |cs| && HasKey(cs[r.value], key)
    ensures r.Some? ==> forall k :: 0 <= k < r.value ==> !HasKey(cs[k], key)
    ensures r.None? <==> forall k :: 0 <= k < |cs| ==> !HasKey(cs[k], key)
  {
    if cs == [] then None
    else if HasKey(cs[0], key) then Some(0)
    else
      var r := FindCustomer(cs[1..], key);
      if r.Some? then Some(r.value + 1) else None
  }

  /** `findOne({ email })` on customers. */
  function CustomerWithEmail(cs: seq<Customer>, email: string): Option<nat> {
    FindCustomer(cs, ByEmail(email))
  }

  /** `findById(id)` on customers. */
  function CustomerWithId(cs: seq<Customer>, id: nat): Option<nat> {
    FindCustomer(cs, ById(id))
  }

  /** `findOne({ orderId })` finds something. */
  predicate HasOrderId(os: seq<Order>, orderId: string) {
    exists k :: 0 <= k < |os| && os[k].orderId == orderId
  }
}
