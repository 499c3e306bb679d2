/** Facts that hold of every database the services can produce. Each request
    the services accept is a `Command`; `Apply` runs one through the rules of
    its service and `Run` runs a sequence of them. Every command preserves
    `Inv`, so every database reached from the empty one satisfies it: no
    meter runs backwards, every invoice balances and agrees with its reading,
    and no tenancy is active or expired without the tenant's confirmation. */
module Invariants {
  import opened Core
  import opened Entities
  import opened Store
  import TenancyRules
  import ReadingRules
  import InvoiceRules
  import PropertyRules
  import ReportRules
  import AccountRules
  import AuthRules

  datatype TenancyCommand =
    | CreateTenancy(now: DateTime, ownerId: Id, create: TenancyRules.CreateTenancyRequest)
    | UpdateTenancy(tenancyId: Id, userId: Id, update: TenancyRules.UpdateTenancyRequest)
    | UpdateTenancyStatus(tenancyId: Id, userId: Id, status: TenancyStatus)
    | TenantConfirmTenancy(tenancyId: Id, userId: Id)
    | CancelTenancy(tenancyId: Id, userId: Id)
    | DeleteTenancy(now: DateTime, tenancyId: Id, ownerId: Id)
    | UpdateExpiredTenancies(now: DateTime)

  datatype ReadingCommand =
    | CreateReading(now: DateTime, userId: Id, create: ReadingRules.CreateReadingRequest)
    | UpdateReading(readingId: Id, userId: Id, update: ReadingRules.UpdateReadingRequest)
    | MarkAsCharged(readingId: Id, userId: Id)
    | DeleteReading(now: DateTime, readingId: Id, userId: Id)

  datatype InvoiceCommand =
    | CreateInvoice(now: DateTime, ownerId: Id, create: InvoiceRules.CreateInvoiceRequest)
    | UpdateInvoice(invoiceId: Id, ownerId: Id, update: InvoiceRules.UpdateInvoiceRequest)
    | UpdateInvoiceStatus(now: DateTime, invoiceId: Id, status: InvoiceStatus, paymentDate: Option<DateTime>)
    | PayInvoice(now: DateTime, invoiceId: Id, tenantId: Id)
    | DeleteInvoice(now: DateTime, invoiceId: Id, ownerId: Id)
    | UpdateOverdueInvoices(now: DateTime)

  datatype PropertyCommand =
    | CreateProperty(now: DateTime, ownerId: Id, create: PropertyRules.CreatePropertyRequest)
    | UpdateProperty(propertyId: Id, ownerId: Id, update: PropertyRules.UpdatePropertyRequest)
    | UpdatePropertyStatus(propertyId: Id, ownerId: Id, status: PropertyStatus)
    | DeleteProperty(now: DateTime, propertyId: Id, ownerId: Id)
    | MarkOccupied(propertyId: Id)
    | MarkAvailable(propertyId: Id, ownerId: Id)

  datatype ReportCommand =
    | CreateReport(now: DateTime, tenantId: Id, create: ReportRules.CreateReportRequest)
    | UpdateReport(reportId: Id, tenantId: Id, update: ReportRules.UpdateReportRequest)
    | UpdateReportStatus(reportId: Id, ownerId: Id, priority: Priority)
    | DeleteReport(now: DateTime, reportId: Id, userId: Id)

  datatype AccountCommand =
    | UpdateAccount(accountId: Id, currentUserId: Id, update: AccountRules.UpdateAccountRequest,
                    hash: string -> string, verify: (string, string) -> bool)
    | DeleteAccount(now: DateTime, accountId: Id, actor: Id)
    | RestoreAccount(accountId: Id)
    | ChangeAccountRole(accountId: Id, role: string)
    | ApproveOwnerAccount(accountId: Id)
    | Register(now: DateTime, register: AuthRules.RegisterRequest, hash: string -> string)

  /** One accepted request, by the service that handles it. */
  datatype Command =
    | Tenancies(tenancy: TenancyCommand)
    | Readings(reading: ReadingCommand)
    | Invoices(invoice: InvoiceCommand)
    | Properties(property: PropertyCommand)
    | Reports(report: ReportCommand)
    | Accounts(account: AccountCommand)

  /** The range annotations of the requests that carry them. */
  predicate InRange(c: Command)
  {
    match c
    case Tenancies(CreateTenancy(_, _, req)) => TenancyRules.CreateRequestInRange(req)
    case Tenancies(UpdateTenancy(_, _, req)) => TenancyRules.UpdateRequestInRange(req)
    case Readings(CreateReading(_, _, req)) => ReadingRules.CreateRequestInRange(req)
    case Readings(UpdateReading(_, _, req)) => ReadingRules.UpdateRequestInRange(req)
    case Properties(CreateProperty(_, _, req)) => PropertyRules.CreateRequestInRange(req)
    case Properties(UpdateProperty(_, _, req)) => PropertyRules.UpdateRequestInRange(req)
    case _ => true
  }

  ghost function ApplyTenancy(st: State, c: TenancyCommand): (post: State)
    requires st.Valid() && InRange(Tenancies(c))
    ensures post.Valid()
  {
    match c
    case CreateTenancy(now, ownerId, req) => TenancyRules.CreateTenancy(st, now, ownerId, req).post
    case UpdateTenancy(tenancyId, userId, req) => TenancyRules.UpdateTenancy(st, tenancyId, userId, req).post
    case UpdateTenancyStatus(tenancyId, userId, s) => TenancyRules.UpdateTenancyStatus(st, tenancyId, userId, s).post
    case TenantConfirmTenancy(tenancyId, userId) => TenancyRules.TenantConfirmTenancy(st, tenancyId, userId).post
    case CancelTenancy(tenancyId, userId) => TenancyRules.CancelTenancy(st, tenancyId, userId).post
    case DeleteTenancy(now, tenancyId, ownerId) => TenancyRules.DeleteTenancy(st, now, tenancyId, ownerId).post
    case UpdateExpiredTenancies(now) => TenancyRules.UpdateExpiredTenancies(st, now).post
  }

  ghost function ApplyReading(st: State, c: ReadingCommand): (post: State)
    requires st.Valid() && InRange(Readings(c))
    ensures post.Valid()
  {
    match c
    case CreateReading(now, userId, req) => ReadingRules.CreateReading(st, now, userId, req).post
    case UpdateReading(readingId, userId, req) => ReadingRules.UpdateReading(st, readingId, userId, req).post
    case MarkAsCharged(readingId, userId) => ReadingRules.MarkAsCharged(st, readingId, userId).post
    case DeleteReading(now, readingId, userId) => ReadingRules.DeleteReading(st, now, readingId, userId).post
  }

  ghost function ApplyInvoice(st: State, c: InvoiceCommand): (post: State)
    requires st.Valid()
    ensures post.Valid()
  {
    match c
    case CreateInvoice(now, ownerId, req) => InvoiceRules.CreateInvoice(st, now, ownerId, req).post
    case UpdateInvoice(invoiceId, ownerId, req) => InvoiceRules.UpdateInvoice(st, invoiceId, ownerId, req).post
    case UpdateInvoiceStatus(now, invoiceId, s, date) => InvoiceRules.UpdateInvoiceStatus(st, now, invoiceId, s, date).post
    case PayInvoice(now, invoiceId, tenantId) => InvoiceRules.PayInvoice(st, now, invoiceId, tenantId).post
    case DeleteInvoice(now, invoiceId, ownerId) => InvoiceRules.DeleteInvoice(st, now, invoiceId, ownerId).post
    case UpdateOverdueInvoices(now) => InvoiceRules.UpdateOverdueInvoices(st, now)
  }

  function ApplyProperty(st: State, c: PropertyCommand): (post: State)
    requires st.Valid() && InRange(Properties(c))
    ensures post.Valid()
    ensures post.tenancies == st.tenancies && post.readings == st.readings && post.invoices == st.invoices
  {
    match c
    case CreateProperty(now, ownerId, req) => PropertyRules.CreateProperty(st, now, ownerId, req).post
    case UpdateProperty(propertyId, ownerId, req) => PropertyRules.UpdateProperty(st, propertyId, ownerId, req).post
    case UpdatePropertyStatus(propertyId, ownerId, s) => PropertyRules.UpdatePropertyStatus(st, propertyId, ownerId, s).post
    case DeleteProperty(now, propertyId, ownerId) => PropertyRules.DeleteProperty(st, now, propertyId, ownerId).post
    case MarkOccupied(propertyId) => PropertyRules.MarkOccupied(st, propertyId).post
    case MarkAvailable(propertyId, ownerId) => PropertyRules.MarkAvailable(st, propertyId, ownerId).post
  }

  function ApplyReport(st: State, c: ReportCommand): (post: State)
    requires st.Valid()
    ensures post.Valid()
    ensures post.tenancies == st.tenancies && post.readings == st.readings && post.invoices == st.invoices
  {
    match c
    case CreateReport(now, tenantId, req) => ReportRules.CreateReport(st, now, tenantId, req).post
    case UpdateReport(reportId, tenantId, req) => ReportRules.UpdateReport(st, reportId, tenantId, req).post
    case UpdateReportStatus(reportId, ownerId, p) => ReportRules.UpdateReportStatus(st, reportId, ownerId, p).post
    case DeleteReport(now, reportId, userId) => ReportRules.DeleteReport(st, now, reportId, userId).post
  }

  function ApplyAccount(st: State, c: AccountCommand): (post: State)
    requires st.Valid()
    ensures post.Valid()
    ensures post.tenancies == st.tenancies && post.readings == st.readings && post.invoices == st.invoices
  {
    match c
    case UpdateAccount(accountId, currentUserId, req, hash, verify) =>
      AccountRules.UpdateAccount(st, accountId, currentUserId, req, hash, verify).post
    case DeleteAccount(now, accountId, actor) => AccountRules.DeleteAccount(st, now, accountId, actor).post
    case RestoreAccount(accountId) => AccountRules.RestoreAccount(st, accountId).post
    case ChangeAccountRole(accountId, role) => AccountRules.ChangeAccountRole(st, accountId, role).post
    case ApproveOwnerAccount(accountId) => AccountRules.ApproveOwnerAccount(st, accountId).post
    case Register(now, req, hash) => AuthRules.Register(st, now, req, hash).post
  }

  /** The database after the service that handles `c` ran it. */
  ghost function Apply(st: State, c: Command): (post: State)
    requires st.Valid() && InRange(c)
    ensures post.Valid()
  {
    match c
    case Tenancies(t) => ApplyTenancy(st, t)
    case Readings(r) => ApplyReading(st, r)
    case Invoices(i) => ApplyInvoice(st, i)
    case Properties(p) => ApplyProperty(st, p)
    case Reports(r) => ApplyReport(st, r)
    case Accounts(a) => ApplyAccount(st, a)
  }

  /** The database after the commands ran one after the other. */
  ghost function Run(st: State, cs: seq<Command>): (post: State)
    requires st.Valid() && forall i :: 0 <= i < |cs| ==> InRange(cs[i])
    ensures post.Valid()
    decreases |cs|
  {
    if cs == [] then st else Run(Apply(st, cs[0]), cs[1..])
  }

  /** A tenancy is confirmed by its tenant exactly from activation on: a
      pending one is not confirmed, an active or expired one is. */
  predicate ConfirmationConsistent(t: Tenancy)
  {
    (t.status == PendingConfirmation ==> !t.isTenantConfirmed) &&
    (t.status == Active || t.status == Expired ==> t.isTenantConfirmed)
  }

  /** An invoice and its reading start from the same meter indices. */
  predicate SameStart(r: UtilityReading, i: Invoice)
  {
    r.electricOldIndex == i.electricOldIndex && r.waterOldIndex == i.waterOldIndex
  }

  ghost predicate TenanciesConsistent(tenancies: map<Id, Tenancy>)
  {
    forall k :: k in tenancies ==> ConfirmationConsistent(tenancies[k])
  }

  ghost predicate ReadingsForward(readings: map<Id, UtilityReading>)
  {
    forall k :: k in readings ==> ReadingRules.Forward(readings[k])
  }

  ghost predicate InvoicesBalanced(invoices: map<Id, Invoice>)
  {
    forall k :: k in invoices ==> BillingConsistent(invoices[k])
  }

  /** Every invoice points at a stored reading that starts where it does. */
  ghost predicate InvoicesLinked(invoices: map<Id, Invoice>, readings: map<Id, UtilityReading>)
  {
    forall k :: k in invoices ==>
      invoices[k].utilityReadingId in readings && SameStart(readings[invoices[k].utilityReadingId], invoices[k])
  }

  ghost predicate Inv(st: State)
  {
    st.Valid() && TenanciesConsistent(st.tenancies) && ReadingsForward(st.readings) &&
    InvoicesBalanced(st.invoices) && InvoicesLinked(st.invoices, st.readings)
  }

  lemma EmptySatisfiesInv()
    ensures Inv(Empty())
  {
  }

  /** A change confined to the tenancy and property tables keeps the
      invariant when every tenancy stays consistent. */
  lemma TenanciesOnlyChanged(st: State, post: State)
    requires Inv(st) && post.Valid()
    requires post.readings == st.readings && post.invoices == st.invoices
    requires TenanciesConsistent(post.tenancies)
    ensures Inv(post)
  {
  }

  lemma TenancyReplaced(tenancies: map<Id, Tenancy>, id: Id, t: Tenancy)
    requires TenanciesConsistent(tenancies) && ConfirmationConsistent(t)
    ensures TenanciesConsistent(tenancies[id := t])
  {
  }

  lemma UpdateTenancyStatusPreservesInv(st: State, tenancyId: Id, userId: Id, s: TenancyStatus)
    requires Inv(st)
    ensures Inv(TenancyRules.UpdateTenancyStatus(st, tenancyId, userId, s).post)
  {
    var o := TenancyRules.UpdateTenancyStatus(st, tenancyId, userId, s);
    if o.result.Ok? {
      var was := st.tenancies[tenancyId];
      TenancyRules.TransitionTableShape(was.status, s);
      assert ConfirmationConsistent(was);
      TenancyReplaced(st.tenancies, tenancyId, was.(status := s));
      TenanciesOnlyChanged(st, o.post);
    }
  }

  lemma UpdateExpiredPreservesInv(st: State, now: DateTime)
    requires Inv(st)
    ensures Inv(TenancyRules.UpdateExpiredTenancies(st, now).post)
  {
    var post := TenancyRules.UpdateExpiredTenancies(st, now).post;
    forall k | k in post.tenancies
      ensures ConfirmationConsistent(post.tenancies[k])
    {
      assert ConfirmationConsistent(st.tenancies[k]);
    }
    TenanciesOnlyChanged(st, post);
  }

  lemma TenancyCommandPreservesInv(st: State, c: TenancyCommand)
    requires Inv(st) && InRange(Tenancies(c))
    ensures Inv(ApplyTenancy(st, c))
  {
    match c
    case CreateTenancy(_, _, _) => TenancyEditPreservesInv(st, c);
    case UpdateTenancy(_, _, _) => TenancyEditPreservesInv(st, c);
    case UpdateTenancyStatus(tenancyId, userId, s) =>
      UpdateTenancyStatusPreservesInv(st, tenancyId, userId, s);
    case TenantConfirmTenancy(_, _) => TenancyLifecyclePreservesInv(st, c);
    case CancelTenancy(_, _) => TenancyLifecyclePreservesInv(st, c);
    case DeleteTenancy(_, _, _) => TenancyLifecyclePreservesInv(st, c);
    case UpdateExpiredTenancies(now) => UpdateExpiredPreservesInv(st, now);
  }

  /** Creating a tenancy, or editing its terms. */
  lemma TenancyEditPreservesInv(st: State, c: TenancyCommand)
    requires Inv(st) && InRange(Tenancies(c)) && (c.CreateTenancy? || c.UpdateTenancy?)
    ensures Inv(ApplyTenancy(st, c))
  {
    match c
    case CreateTenancy(now, ownerId, req) =>
      var o := TenancyRules.CreateTenancy(st, now, ownerId, req);
      if o.result.Ok? {
        TenancyReplaced(st.tenancies, st.nextId, o.post.tenancies[st.nextId]);
        TenanciesOnlyChanged(st, o.post);
      }
    case UpdateTenancy(tenancyId, userId, req) =>
      var o := TenancyRules.UpdateTenancy(st, tenancyId, userId, req);
      if o.result.Ok? {
        assert ConfirmationConsistent(st.tenancies[tenancyId]);
        TenancyReplaced(st.tenancies, tenancyId, o.result.value);
        TenanciesOnlyChanged(st, o.post);
      }
  }

  /** The tenant's confirmation, cancellation and deletion. */
  lemma TenancyLifecyclePreservesInv(st: State, c: TenancyCommand)
    requires Inv(st) && InRange(Tenancies(c)) && (c.TenantConfirmTenancy? || c.CancelTenancy? || c.DeleteTenancy?)
    ensures Inv(ApplyTenancy(st, c))
  {
    match c
    case TenantConfirmTenancy(tenancyId, userId) =>
      var o := TenancyRules.TenantConfirmTenancy(st, tenancyId, userId);
      if o.result.Ok? {
        TenancyReplaced(st.tenancies, tenancyId, o.result.value);
        TenanciesOnlyChanged(st, o.post);
      }
    case CancelTenancy(tenancyId, userId) =>
      var o := TenancyRules.CancelTenancy(st, tenancyId, userId);
      if o.result.Ok? {
        TenancyReplaced(st.tenancies, tenancyId, st.tenancies[tenancyId].(status := TenancyStatus.Cancelled));
        TenanciesOnlyChanged(st, o.post);
      }
    case DeleteTenancy(now, tenancyId, ownerId) =>
      var o := TenancyRules.DeleteTenancy(st, now, tenancyId, ownerId);
      if o.result.Ok? {
        var was := st.tenancies[tenancyId];
        assert ConfirmationConsistent(was);
        TenancyReplaced(st.tenancies, tenancyId, was.(audit := SoftRemoved(was.audit, now, ownerId)));
        TenanciesOnlyChanged(st, o.post);
      }
  }

  /** A change confined to the reading table keeps the invariant when every
      reading still runs forward and keeps its start indices. */
  lemma ReadingsOnlyChanged(st: State, post: State)
    requires Inv(st) && post.Valid()
    requires post.tenancies == st.tenancies && post.invoices == st.invoices
    requires ReadingsForward(post.readings)
    requires forall k :: k in st.readings ==> k in post.readings && SameIndices(st.readings[k], post.readings[k])
    ensures Inv(post)
  {
    forall k | k in post.invoices
      ensures post.invoices[k].utilityReadingId in post.readings
      ensures SameStart(post.readings[post.invoices[k].utilityReadingId], post.invoices[k])
    {
      assert st.invoices[k].utilityReadingId in st.readings;
    }
  }

  /** Two versions of a reading with the same start indices. */
  predicate SameIndices(a: UtilityReading, b: UtilityReading)
  {
    a.electricOldIndex == b.electricOldIndex && a.waterOldIndex == b.waterOldIndex
  }

  lemma ReadingReplaced(st: State, post: State, id: Id, r: UtilityReading)
    requires Inv(st) && post.Valid()
    requires post == st.(readings := st.readings[id := r], nextId := post.nextId)
    requires ReadingRules.Forward(r)
    requires id in st.readings ==> SameIndices(st.readings[id], r)
    ensures Inv(post)
  {
    ReadingsOnlyChanged(st, post);
  }

  lemma ReadingCommandPreservesInv(st: State, c: ReadingCommand)
    requires Inv(st) && InRange(Readings(c))
    ensures Inv(ApplyReading(st, c))
  {
    if c.CreateReading? || c.UpdateReading? {
      ReadingEditPreservesInv(st, c);
    } else {
      ReadingLifecyclePreservesInv(st, c);
    }
  }

  /** Recording a reading, or correcting its indices. */
  lemma ReadingEditPreservesInv(st: State, c: ReadingCommand)
    requires Inv(st) && InRange(Readings(c)) && (c.CreateReading? || c.UpdateReading?)
    ensures Inv(ApplyReading(st, c))
  {
    match c
    case CreateReading(now, userId, req) =>
      var o := ReadingRules.CreateReading(st, now, userId, req);
      if o.result.Ok? {
        ReadingReplaced(st, o.post, st.nextId, o.post.readings[st.nextId]);
      }
    case UpdateReading(readingId, userId, req) =>
      var o := ReadingRules.UpdateReading(st, readingId, userId, req);
      if o.result.Ok? {
        ReadingReplaced(st, o.post, readingId, o.result.value.reading);
      }
  }

  /** Marking a reading charged, or deleting it. */
  lemma ReadingLifecyclePreservesInv(st: State, c: ReadingCommand)
    requires Inv(st) && InRange(Readings(c)) && (c.MarkAsCharged? || c.DeleteReading?)
    ensures Inv(ApplyReading(st, c))
  {
    match c
    case MarkAsCharged(readingId, userId) =>
      var o := ReadingRules.MarkAsCharged(st, readingId, userId);
      if o.result.Ok? {
        assert ReadingRules.Forward(st.readings[readingId]);
        ReadingReplaced(st, o.post, readingId, st.readings[readingId].(isCharged := true));
      }
    case DeleteReading(now, readingId, userId) =>
      var o := ReadingRules.DeleteReading(st, now, readingId, userId);
      if o.result.Ok? {
        var was := st.readings[readingId];
        assert ReadingRules.Forward(was);
        ReadingReplaced(st, o.post, readingId, was.(audit := SoftRemoved(was.audit, now, userId)));
      }
  }

  /** A change confined to one invoice keeps the invariant when the new
      version balances and keeps its reading and start indices. */
  lemma InvoiceReplaced(st: State, post: State, id: Id, i: Invoice)
    requires Inv(st) && id in st.invoices
    requires post == st.(invoices := st.invoices[id := i])
    requires BillingConsistent(i)
    requires i.utilityReadingId == st.invoices[id].utilityReadingId
    requires i.electricOldIndex == st.invoices[id].electricOldIndex && i.waterOldIndex == st.invoices[id].waterOldIndex
    ensures Inv(post)
  {
    assert st.invoices[id].utilityReadingId in st.readings;
  }

  lemma UpdateOverduePreservesInv(st: State, now: DateTime)
    requires Inv(st)
    ensures Inv(InvoiceRules.UpdateOverdueInvoices(st, now))
  {
    var post := InvoiceRules.UpdateOverdueInvoices(st, now);
    forall k | k in post.invoices
      ensures BillingConsistent(post.invoices[k])
      ensures post.invoices[k].utilityReadingId in post.readings
      ensures SameStart(post.readings[post.invoices[k].utilityReadingId], post.invoices[k])
    {
      assert BillingConsistent(st.invoices[k]);
      assert st.invoices[k].utilityReadingId in st.readings;
    }
  }

  lemma InvoiceCommandPreservesInv(st: State, c: InvoiceCommand)
    requires Inv(st)
    ensures Inv(ApplyInvoice(st, c))
  {
    match c
    case CreateInvoice(now, ownerId, req) =>
      CreateInvoicePreservesInv(st, now, ownerId, req);
    case UpdateInvoice(invoiceId, ownerId, req) =>
      UpdateInvoicePreservesInv(st, invoiceId, ownerId, req);
    case UpdateInvoiceStatus(now, invoiceId, s, date) =>
      var o := InvoiceRules.UpdateInvoiceStatus(st, now, invoiceId, s, date);
      if o.result.Ok? {
        assert BillingConsistent(st.invoices[invoiceId]);
        InvoiceReplaced(st, o.post, invoiceId, o.result.value);
      }
    case PayInvoice(now, invoiceId, tenantId) =>
      var o := InvoiceRules.PayInvoice(st, now, invoiceId, tenantId);
      if o.result.Ok? {
        assert BillingConsistent(st.invoices[invoiceId]);
        InvoiceReplaced(st, o.post, invoiceId, o.result.value);
      }
    case DeleteInvoice(now, invoiceId, ownerId) =>
      var o := InvoiceRules.DeleteInvoice(st, now, invoiceId, ownerId);
      if o.result == Ok(true) {
        var was := st.invoices[invoiceId];
        assert BillingConsistent(was);
        InvoiceReplaced(st, o.post, invoiceId, was.(audit := SoftRemoved(was.audit, now, ownerId)));
      }
    case UpdateOverdueInvoices(now) =>
      UpdateOverduePreservesInv(st, now);
  }

  lemma CreateInvoicePreservesInv(st: State, now: DateTime, ownerId: Id, req: InvoiceRules.CreateInvoiceRequest)
    requires Inv(st)
    ensures Inv(InvoiceRules.CreateInvoice(st, now, ownerId, req).post)
  {
    var o := InvoiceRules.CreateInvoice(st, now, ownerId, req);
    if o.result.Ok? {
      var post := o.post;
      var readingId := st.nextId;
      forall k | k in post.invoices
        ensures BillingConsistent(post.invoices[k])
        ensures post.invoices[k].utilityReadingId in post.readings
        ensures SameStart(post.readings[post.invoices[k].utilityReadingId], post.invoices[k])
      {
        if k in st.invoices {
          assert post.invoices[k] == st.invoices[k];
          assert st.invoices[k].utilityReadingId in st.readings;
          assert st.invoices[k].utilityReadingId != readingId;
        }
      }
      assert ReadingsForward(post.readings);
    }
  }

  lemma UpdateInvoicePreservesInv(st: State, invoiceId: Id, ownerId: Id, req: InvoiceRules.UpdateInvoiceRequest)
    requires Inv(st)
    ensures Inv(InvoiceRules.UpdateInvoice(st, invoiceId, ownerId, req).post)
  {
    var o := InvoiceRules.UpdateInvoice(st, invoiceId, ownerId, req);
    if o.result.Ok? {
      var post := o.post;
      var was := st.invoices[invoiceId];
      var rid := was.utilityReadingId;
      assert BillingConsistent(was);
      assert rid in st.readings && SameStart(st.readings[rid], was);
      assert post.readings.Keys == st.readings.Keys;
      assert forall k :: k in st.readings && k != rid ==> post.readings[k] == st.readings[k];
      assert SameStart(post.readings[rid], was) && ReadingRules.Forward(post.readings[rid]);
      forall k | k in post.invoices
        ensures post.invoices[k].utilityReadingId in post.readings
        ensures SameStart(post.readings[post.invoices[k].utilityReadingId], post.invoices[k])
      {
        assert st.invoices[k].utilityReadingId in st.readings;
      }
    }
  }

  /** Every command preserves the invariant. */
  lemma ApplyPreservesInv(st: State, c: Command)
    requires Inv(st) && InRange(c)
    ensures Inv(Apply(st, c))
  {
    match c
    case Tenancies(t) => TenancyCommandPreservesInv(st, t);
    case Readings(r) => ReadingCommandPreservesInv(st, r);
    case Invoices(i) => InvoiceCommandPreservesInv(st, i);
    case Properties(p) =>
    case Reports(r) =>
    case Accounts(a) =>
  }

  lemma {:induction false} RunPreservesInv(st: State, cs: seq<Command>)
    requires Inv(st) && forall i :: 0 <= i < |cs| ==> InRange(cs[i])
    ensures Inv(Run(st, cs))
    decreases |cs|
  {
    if cs != [] {
      ApplyPreservesInv(st, cs[0]);
      RunPreservesInv(Apply(st, cs[0]), cs[1..]);
    }
  }

  /** Every database the services can build from the empty one satisfies the invariant. */
  lemma ReachableSatisfiesInv(cs: seq<Command>)
    requires forall i :: 0 <= i < |cs| ==> InRange(cs[i])
    ensures Inv(Run(Empty(), cs))
  {
    EmptySatisfiesInv();
    RunPreservesInv(Empty(), cs);
  }

  /** The usage shown for any stored reading is never negative. */
  lemma ReachableUsageNonNegative(cs: seq<Command>, id: Id)
    requires forall i :: 0 <= i < |cs| ==> InRange(cs[i])
    requires id in Run(Empty(), cs).readings
    ensures var v := ReadingRules.View(id, Run(Empty(), cs).readings[id]);
      v.electricUsage >= 0 && v.waterUsage >= 0
  {
    ReachableSatisfiesInv(cs);
  }

  /** Every stored invoice balances, and the utilities it bills are those its
      reading recorded since that reading's start. */
  lemma ReachableInvoicesBalance(cs: seq<Command>, id: Id)
    requires forall i :: 0 <= i < |cs| ==> InRange(cs[i])
    requires id in Run(Empty(), cs).invoices
    ensures var st := Run(Empty(), cs);
      var i := st.invoices[id];
      i.totalAmount == i.monthlyRentPrice + i.electricCost + i.waterCost + i.otherFees &&
      i.electricCost == (i.electricNewIndex - i.electricOldIndex) * i.electricUnitPrice &&
      i.waterCost == (i.waterNewIndex - i.waterOldIndex) * i.waterUnitPrice &&
      i.utilityReadingId in st.readings &&
      st.readings[i.utilityReadingId].electricOldIndex == i.electricOldIndex &&
      st.readings[i.utilityReadingId].waterOldIndex == i.waterOldIndex
  {
    var st := Run(Empty(), cs);
    ReachableSatisfiesInv(cs);
    var i := st.invoices[id];
    assert BillingConsistent(i);
    assert i.utilityReadingId in st.readings && SameStart(st.readings[i.utilityReadingId], i);
  }

  /** No tenancy is ever active or expired without its tenant's confirmation,
      and none is pending with it. */
  lemma ReachableTenanciesConfirmed(cs: seq<Command>, id: Id)
    requires forall i :: 0 <= i < |cs| ==> InRange(cs[i])
    requires id in Run(Empty(), cs).tenancies
    ensures var t := Run(Empty(), cs).tenancies[id];
      (t.status == Active || t.status == Expired ==> t.isTenantConfirmed) &&
      (t.status == PendingConfirmation ==> !t.isTenantConfirmed)
  {
    ReachableSatisfiesInv(cs);
  }
}
