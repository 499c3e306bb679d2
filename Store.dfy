/** The persistence side of the services: one table per entity kind, keyed by
    id, and the unit of work the services load from and commit to. Soft
    deletion is a flag on the record; nothing is ever physically removed. */
module Store {
  import opened Core
  import opened Entities

  /** A snapshot of every table. `nextId` is the next identifier the database
      hands out. */
  datatype State = State(
    accounts: map<Id, Account>,
    properties: map<Id, Property>,
    tenancies: map<Id, Tenancy>,
    readings: map<Id, UtilityReading>,
    invoices: map<Id, Invoice>,
    payments: map<Id, Payment>,
    reports: map<Id, PropertyReport>,
    nextId: Id)
  {
    /** Every stored id was handed out before `nextId`, so `nextId` is fresh. */
    predicate Valid()
    {
      (forall k :: k in accounts ==> k < nextId) &&
      (forall k :: k in properties ==> k < nextId) &&
      (forall k :: k in tenancies ==> k < nextId) &&
      (forall k :: k in readings ==> k < nextId) &&
      (forall k :: k in invoices ==> k < nextId) &&
      (forall k :: k in payments ==> k < nextId) &&
      (forall k :: k in reports ==> k < nextId)
    }

    /** GetByIdAsync found the record and it is not soft-deleted. */
    predicate LiveAccount(id: Id) { id in accounts && !accounts[id].audit.isDeleted }
    predicate LiveProperty(id: Id) { id in properties && !properties[id].audit.isDeleted }
    predicate LiveTenancy(id: Id) { id in tenancies && !tenancies[id].audit.isDeleted }
    predicate LiveReading(id: Id) { id in readings && !readings[id].audit.isDeleted }
    predicate LiveInvoice(id: Id) { id in invoices && !invoices[id].audit.isDeleted }
    predicate LiveReport(id: Id) { id in reports && !reports[id].audit.isDeleted }

    /** Some non-deleted active tenancy references the property. */
    predicate HasActiveTenancy(propertyId: Id)
    {
      exists k :: k in tenancies && tenancies[k].propertyId == propertyId &&
        tenancies[k].status == Active && !tenancies[k].audit.isDeleted
    }
  }

  /** The empty database. */
  function Empty(): (st: State)
    ensures st.Valid() && st.accounts == map[] && st.tenancies == map[]
  {
    State(map[], map[], map[], map[], map[], map[], map[], 0)
  }

  /** What an operation returns, and the database after it. A failed guard
      commits nothing, so a failing outcome carries the state it started from. */
  datatype Outcome<+T> = Outcome(result: Result<T>, post: State)

  function Fail<T>(st: State, e: Error): (o: Outcome<T>)
    ensures o.result == Err(e) && o.post == st
  {
    Outcome(Err(e), st)
  }

  /** Sets the status of a property if the table has it (the services write
      through `property != null`, deleted or not). */
  function SetPropertyStatus(properties: map<Id, Property>, id: Id, s: PropertyStatus): (r: map<Id, Property>)
    ensures r.Keys == properties.Keys
    ensures id in properties ==> r[id] == properties[id].(status := s)
    ensures forall k :: k in properties && k != id ==> r[k] == properties[k]
  {
    if id in properties then properties[id := properties[id].(status := s)] else properties
  }

  /** The unit of work: the tables as fields that the service methods reassign.
      A service method loads records into locals, runs its guards, and assigns
      the tables last (SaveChangesAsync), so a failed guard leaves them as they were. */
  class UnitOfWork {
    var accounts: map<Id, Account>
    var properties: map<Id, Property>
    var tenancies: map<Id, Tenancy>
    var readings: map<Id, UtilityReading>
    var invoices: map<Id, Invoice>
    var payments: map<Id, Payment>
    var reports: map<Id, PropertyReport>
    var nextId: Id

    function Snapshot(): State
      reads this
    {
      State(accounts, properties, tenancies, readings, invoices, payments, reports, nextId)
    }

    constructor ()
      ensures Snapshot() == Empty()
    {
      accounts, properties, tenancies, readings := map[], map[], map[], map[];
      invoices, payments, reports := map[], map[], map[];
      nextId := 0;
    }
  }
}
