/** What each invoice operation does to the database. An invoice bills the
    rent of the property plus the metered utilities since the tenancy's
    latest reading; creating one also records a new reading. */
module InvoiceRules {
  import opened Core
  import opened Entities
  import opened Store
  import opened Query
  import ReadingRules

  datatype CreateInvoiceRequest = CreateInvoiceRequest(
    tenancyId: Id,
    billingPeriodStart: DateTime,
    billingPeriodEnd: DateTime,
    dueDate: DateTime,
    electricNewIndex: int,
    waterNewIndex: int,
    electricUnitPrice: int,
    waterUnitPrice: int,
    otherFees: int)

  /** The old indices an invoice bills from: the new indices of the latest
      reading of the tenancy, or zero when it has none. */
  ghost function BillingStart(readings: map<Id, UtilityReading>, propertyId: Id, tenancyId: Id): (r: (int, int))
    ensures ReadingRules.ChainOf(readings, propertyId, tenancyId) == {} ==> r == (0, 0)
    ensures forall k :: IsNewest(readings, ReadingRules.ChainOf(readings, propertyId, tenancyId), ReadingRules.ReadingDate, k) ==>
      r == (readings[k].electricNewIndex, readings[k].waterNewIndex)
  {
    var chain := ReadingRules.ChainOf(readings, propertyId, tenancyId);
    match NewestOf(readings, chain, ReadingRules.ReadingDate)
    case None => (0, 0)
    case Some(k) =>
      forall j | IsNewest(readings, chain, ReadingRules.ReadingDate, j)
        ensures j == k
      {
        NewestUnique(readings, chain, ReadingRules.ReadingDate, j, k);
      }
      (readings[k].electricNewIndex, readings[k].waterNewIndex)
  }

  /** With no reading on record, an invoice bills from zero, while a reading
      recorded through the reading service starts from the tenancy's baseline. */
  lemma FirstInvoiceIgnoresBaseline(readings: map<Id, UtilityReading>, propertyId: Id, tenancyId: Id, t: Tenancy)
    requires ReadingRules.ChainOf(readings, propertyId, tenancyId) == {}
    ensures BillingStart(readings, propertyId, tenancyId) == (0, 0)
    ensures ReadingRules.StartIndices(readings, propertyId, tenancyId, t) == (t.electricOldIndex, t.waterOldIndex)
  {
  }

  /** The reading a successful creation records alongside the invoice. */
  function InvoiceReading(now: DateTime, ownerId: Id, t: Tenancy, tenancyId: Id, req: CreateInvoiceRequest, start: (int, int)): UtilityReading
  {
    UtilityReading(Inserted(now), t.propertyId, tenancyId, now,
      start.0, req.electricNewIndex, start.1, req.waterNewIndex, false, ownerId)
  }

  /** The invoice a successful creation inserts, pointing to reading `readingId`. */
  function NewInvoice(now: DateTime, ownerId: Id, t: Tenancy, req: CreateInvoiceRequest, rent: int,
                      start: (int, int), readingId: Id): (i: Invoice)
    ensures BillingConsistent(i)
  {
    var electricCost := UtilityCost(start.0, req.electricNewIndex, req.electricUnitPrice);
    var waterCost := UtilityCost(start.1, req.waterNewIndex, req.waterUnitPrice);
    Invoice(Inserted(now), t.propertyId, req.tenancyId, t.tenantId, ownerId, readingId,
      req.billingPeriodStart, req.billingPeriodEnd, req.dueDate, Pending, None, rent,
      start.0, req.electricNewIndex, req.electricUnitPrice, electricCost,
      start.1, req.waterNewIndex, req.waterUnitPrice, waterCost,
      req.otherFees, rent + electricCost + waterCost + req.otherFees)
  }

  /** The tenancy and its property are live and the caller owns the property. */
  predicate OwnerBills(st: State, ownerId: Id, tenancyId: Id)
  {
    st.LiveTenancy(tenancyId) && st.LiveProperty(st.tenancies[tenancyId].propertyId) &&
    st.properties[st.tenancies[tenancyId].propertyId].ownerId == ownerId
  }

  ghost function CreateInvoice(st: State, now: DateTime, ownerId: Id, req: CreateInvoiceRequest): (o: Outcome<Id>)
    requires st.Valid()
    ensures o.result.Err? ==> o.post == st
    ensures !st.LiveTenancy(req.tenancyId) ==> o.result == Err(Failure(Missing))
    ensures st.LiveTenancy(req.tenancyId) && !st.LiveProperty(st.tenancies[req.tenancyId].propertyId)
      ==> o.result == Err(Failure(Missing))
    ensures o.result == Err(Forbidden) <==>
      st.LiveTenancy(req.tenancyId) && st.LiveProperty(st.tenancies[req.tenancyId].propertyId) &&
      st.properties[st.tenancies[req.tenancyId].propertyId].ownerId != ownerId
    ensures OwnerBills(st, ownerId, req.tenancyId) &&
      req.electricNewIndex < BillingStart(st.readings, st.tenancies[req.tenancyId].propertyId, req.tenancyId).0
      ==> o.result == Err(Failure(ElectricIndex))
    ensures (OwnerBills(st, ownerId, req.tenancyId) &&
      var start := BillingStart(st.readings, st.tenancies[req.tenancyId].propertyId, req.tenancyId);
      start.0 <= req.electricNewIndex && req.waterNewIndex < start.1)
      ==> o.result == Err(Failure(WaterIndex))
    ensures o.result.Ok? <==>
      st.LiveTenancy(req.tenancyId) && st.LiveProperty(st.tenancies[req.tenancyId].propertyId) &&
      st.properties[st.tenancies[req.tenancyId].propertyId].ownerId == ownerId &&
      var start := BillingStart(st.readings, st.tenancies[req.tenancyId].propertyId, req.tenancyId);
      start.0 <= req.electricNewIndex && start.1 <= req.waterNewIndex
    ensures o.result.Ok? ==>
      var t := st.tenancies[req.tenancyId];
      var readingId, invoiceId := st.nextId, st.nextId + 1;
      o.result.value == invoiceId &&
      readingId !in st.readings && invoiceId !in st.invoices &&
      readingId in o.post.readings && invoiceId in o.post.invoices &&
      o.post == st.(readings := st.readings[readingId := o.post.readings[readingId]],
                    invoices := st.invoices[invoiceId := o.post.invoices[invoiceId]],
                    nextId := invoiceId + 1) &&
      var r, i := o.post.readings[readingId], o.post.invoices[invoiceId];
      i.status == Pending && i.paymentDate == None && !i.audit.isDeleted && BillingConsistent(i) &&
      i.utilityReadingId == readingId && i.ownerId == ownerId && i.tenantId == t.tenantId &&
      i.tenancyId == req.tenancyId && i.propertyId == t.propertyId &&
      i.monthlyRentPrice == st.properties[t.propertyId].monthlyPrice &&
      (i.electricOldIndex, i.waterOldIndex) == BillingStart(st.readings, t.propertyId, req.tenancyId) &&
      i.electricNewIndex == req.electricNewIndex && i.waterNewIndex == req.waterNewIndex &&
      i.electricUnitPrice == req.electricUnitPrice && i.waterUnitPrice == req.waterUnitPrice &&
      i.otherFees == req.otherFees && i.dueDate == req.dueDate &&
      i.billingPeriodStart == req.billingPeriodStart && i.billingPeriodEnd == req.billingPeriodEnd &&
      i.audit == Inserted(now) &&
      r.electricOldIndex == i.electricOldIndex && r.electricNewIndex == i.electricNewIndex &&
      r.waterOldIndex == i.waterOldIndex && r.waterNewIndex == i.waterNewIndex &&
      ReadingRules.Forward(r) && !r.isCharged && !r.audit.isDeleted && r.readingDate == now &&
      r.propertyId == t.propertyId && r.tenancyId == req.tenancyId
    ensures ReadingRules.ChargesKept(st.readings, o.post.readings)
  {
    if !st.LiveTenancy(req.tenancyId) then Fail(st, Failure(Missing))
    else
      var t := st.tenancies[req.tenancyId];
      if !st.LiveProperty(t.propertyId) then Fail(st, Failure(Missing))
      else if st.properties[t.propertyId].ownerId != ownerId then Fail(st, Forbidden)
      else
        var start := BillingStart(st.readings, t.propertyId, req.tenancyId);
        if req.electricNewIndex < start.0 then Fail(st, Failure(ElectricIndex))
        else if req.waterNewIndex < start.1 then Fail(st, Failure(WaterIndex))
        else
          var readingId, invoiceId := st.nextId, st.nextId + 1;
          var r := InvoiceReading(now, ownerId, t, req.tenancyId, req, start);
          var i := NewInvoice(now, ownerId, t, req, st.properties[t.propertyId].monthlyPrice, start, readingId);
          Outcome(Ok(invoiceId), st.(readings := st.readings[readingId := r],
                                     invoices := st.invoices[invoiceId := i],
                                     nextId := invoiceId + 1))
  }

  /** The optional fields of an invoice update; `None` leaves the stored value. */
  datatype UpdateInvoiceRequest = UpdateInvoiceRequest(
    billingPeriodStart: Option<DateTime>,
    billingPeriodEnd: Option<DateTime>,
    dueDate: Option<DateTime>,
    electricNewIndex: Option<int>,
    waterNewIndex: Option<int>,
    electricUnitPrice: Option<int>,
    waterUnitPrice: Option<int>,
    otherFees: Option<int>)

  /** The update touches an amount, so costs and total are computed again. */
  predicate Recalculates(req: UpdateInvoiceRequest)
  {
    req.electricNewIndex.Some? || req.waterNewIndex.Some? ||
    req.electricUnitPrice.Some? || req.waterUnitPrice.Some? || req.otherFees.Some?
  }

  /** Costs and total computed from the indices, prices, rent and fees. */
  function Recalculated(i: Invoice): (r: Invoice)
    ensures BillingConsistent(r)
    ensures r.(electricCost := i.electricCost, waterCost := i.waterCost, totalAmount := i.totalAmount) == i
  {
    var electricCost := UtilityCost(i.electricOldIndex, i.electricNewIndex, i.electricUnitPrice);
    var waterCost := UtilityCost(i.waterOldIndex, i.waterNewIndex, i.waterUnitPrice);
    i.(electricCost := electricCost, waterCost := waterCost,
       totalAmount := i.monthlyRentPrice + electricCost + waterCost + i.otherFees)
  }

  /** The linked reading after an update that recalculated: the supplied new
      indices are copied into it when it exists and is not deleted. */
  function ReadingsAfterUpdate(readings: map<Id, UtilityReading>, readingId: Id, req: UpdateInvoiceRequest)
    : (r: map<Id, UtilityReading>)
    ensures r.Keys == readings.Keys
    ensures forall k :: k in readings && k != readingId ==> r[k] == readings[k]
    ensures readingId in readings ==>
      var was := readings[readingId];
      r[readingId] == if was.audit.isDeleted then was
                      else was.(electricNewIndex := OrElse(req.electricNewIndex, was.electricNewIndex),
                                waterNewIndex := OrElse(req.waterNewIndex, was.waterNewIndex))
  {
    if readingId in readings && !readings[readingId].audit.isDeleted then
      var was := readings[readingId];
      readings[readingId := was.(electricNewIndex := OrElse(req.electricNewIndex, was.electricNewIndex),
                                 waterNewIndex := OrElse(req.waterNewIndex, was.waterNewIndex))]
    else readings
  }

  /** A live invoice of this owner, still a draft or pending. */
  predicate EditableBy(st: State, invoiceId: Id, ownerId: Id)
  {
    st.LiveInvoice(invoiceId) && st.invoices[invoiceId].ownerId == ownerId &&
    (st.invoices[invoiceId].status.Draft? || st.invoices[invoiceId].status.Pending?)
  }

  function UpdateInvoice(st: State, invoiceId: Id, ownerId: Id, req: UpdateInvoiceRequest): (o: Outcome<Invoice>)
    ensures o.result.Err? ==> o.post == st
    ensures !st.LiveInvoice(invoiceId) ==> o.result == Err(Failure(Missing))
    ensures st.LiveInvoice(invoiceId) && st.invoices[invoiceId].ownerId != ownerId ==> o.result == Err(Forbidden)
    ensures st.LiveInvoice(invoiceId) && st.invoices[invoiceId].ownerId == ownerId &&
      !(st.invoices[invoiceId].status.Draft? || st.invoices[invoiceId].status.Pending?)
      ==> o.result == Err(Failure(NotEditable))
    ensures EditableBy(st, invoiceId, ownerId) &&
      req.electricNewIndex.Some? && req.electricNewIndex.value < st.invoices[invoiceId].electricOldIndex
      ==> o.result == Err(Failure(ElectricIndex))
    ensures EditableBy(st, invoiceId, ownerId) &&
      (req.electricNewIndex.Some? ==> st.invoices[invoiceId].electricOldIndex <= req.electricNewIndex.value) &&
      req.waterNewIndex.Some? && req.waterNewIndex.value < st.invoices[invoiceId].waterOldIndex
      ==> o.result == Err(Failure(WaterIndex))
    ensures o.result.Ok? <==>
      st.LiveInvoice(invoiceId) && st.invoices[invoiceId].ownerId == ownerId &&
      (st.invoices[invoiceId].status.Draft? || st.invoices[invoiceId].status.Pending?) &&
      (req.electricNewIndex.Some? ==> st.invoices[invoiceId].electricOldIndex <= req.electricNewIndex.value) &&
      (req.waterNewIndex.Some? ==> st.invoices[invoiceId].waterOldIndex <= req.waterNewIndex.value)
    ensures o.result.Ok? ==>
      var was, i := st.invoices[invoiceId], o.result.value;
      o.post == st.(invoices := st.invoices[invoiceId := i], readings := o.post.readings) &&
      i.electricOldIndex == was.electricOldIndex && i.waterOldIndex == was.waterOldIndex &&
      i.monthlyRentPrice == was.monthlyRentPrice && i.status == was.status &&
      i.paymentDate == was.paymentDate && i.audit == was.audit && i.utilityReadingId == was.utilityReadingId &&
      i.ownerId == was.ownerId && i.tenantId == was.tenantId && i.tenancyId == was.tenancyId &&
      i.propertyId == was.propertyId &&
      i.billingPeriodStart == OrElse(req.billingPeriodStart, was.billingPeriodStart) &&
      i.billingPeriodEnd == OrElse(req.billingPeriodEnd, was.billingPeriodEnd) &&
      i.dueDate == OrElse(req.dueDate, was.dueDate) &&
      i.electricNewIndex == OrElse(req.electricNewIndex, was.electricNewIndex) &&
      i.waterNewIndex == OrElse(req.waterNewIndex, was.waterNewIndex) &&
      i.electricUnitPrice == OrElse(req.electricUnitPrice, was.electricUnitPrice) &&
      i.waterUnitPrice == OrElse(req.waterUnitPrice, was.waterUnitPrice) &&
      i.otherFees == OrElse(req.otherFees, was.otherFees) &&
      (BillingConsistent(was) || Recalculates(req) ==> BillingConsistent(i)) &&
      (!Recalculates(req) ==> i == was.(billingPeriodStart := i.billingPeriodStart,
                                        billingPeriodEnd := i.billingPeriodEnd, dueDate := i.dueDate)) &&
      o.post.readings == if Recalculates(req) then ReadingsAfterUpdate(st.readings, was.utilityReadingId, req)
                         else st.readings
    ensures ReadingRules.ChargesKept(st.readings, o.post.readings)
  {
    if !st.LiveInvoice(invoiceId) then Fail(st, Failure(Missing))
    else
      var was := st.invoices[invoiceId];
      if was.ownerId != ownerId then Fail(st, Forbidden)
      else if !(was.status == Draft || was.status == Pending) then Fail(st, Failure(NotEditable))
      else if req.electricNewIndex.Some? && req.electricNewIndex.value < was.electricOldIndex then Fail(st, Failure(ElectricIndex))
      else if req.waterNewIndex.Some? && req.waterNewIndex.value < was.waterOldIndex then Fail(st, Failure(WaterIndex))
      else
        var edited := was.(
          billingPeriodStart := OrElse(req.billingPeriodStart, was.billingPeriodStart),
          billingPeriodEnd := OrElse(req.billingPeriodEnd, was.billingPeriodEnd),
          dueDate := OrElse(req.dueDate, was.dueDate),
          otherFees := OrElse(req.otherFees, was.otherFees),
          electricNewIndex := OrElse(req.electricNewIndex, was.electricNewIndex),
          waterNewIndex := OrElse(req.waterNewIndex, was.waterNewIndex),
          electricUnitPrice := OrElse(req.electricUnitPrice, was.electricUnitPrice),
          waterUnitPrice := OrElse(req.waterUnitPrice, was.waterUnitPrice));
        if Recalculates(req) then
          var i := Recalculated(edited);
          Outcome(Ok(i), st.(invoices := st.invoices[invoiceId := i],
                             readings := ReadingsAfterUpdate(st.readings, was.utilityReadingId, req)))
        else
          Outcome(Ok(edited), st.(invoices := st.invoices[invoiceId := edited]))
  }

  /** The invoice update writes new indices into its reading even after the
      reading was charged, which the reading service itself refuses to do. */
  lemma UpdateRewritesChargedReading(st: State, invoiceId: Id, ownerId: Id, req: UpdateInvoiceRequest, userId: Id,
                                     readingReq: ReadingRules.UpdateReadingRequest)
    requires UpdateInvoice(st, invoiceId, ownerId, req).result.Ok?
    requires req.electricNewIndex.Some?
    requires ReadingRules.UpdateRequestInRange(readingReq)
    requires var rid := st.invoices[invoiceId].utilityReadingId;
      st.LiveReading(rid) && st.readings[rid].isCharged
    ensures var rid := st.invoices[invoiceId].utilityReadingId;
      UpdateInvoice(st, invoiceId, ownerId, req).post.readings[rid].electricNewIndex == req.electricNewIndex.value &&
      UpdateInvoice(st, invoiceId, ownerId, req).post.readings[rid].isCharged &&
      ReadingRules.UpdateReading(st, rid, userId, readingReq).result == Err(Conflict)
  {
  }

  function UpdateInvoiceStatus(st: State, now: DateTime, invoiceId: Id, status: InvoiceStatus, paymentDate: Option<DateTime>)
    : (o: Outcome<Invoice>)
    ensures o.result.Err? ==> o.post == st
    ensures o.result.Ok? <==> st.LiveInvoice(invoiceId)
    ensures !st.LiveInvoice(invoiceId) ==> o.result == Err(Failure(Missing))
    ensures o.result.Ok? ==>
      var was, i := st.invoices[invoiceId], o.result.value;
      o.post == st.(invoices := st.invoices[invoiceId := i]) &&
      i.status == status && i == was.(status := status, paymentDate := i.paymentDate) &&
      (paymentDate.Some? ==> i.paymentDate == paymentDate) &&
      (paymentDate.None? && status == Paid && was.paymentDate.None? ==> i.paymentDate == Some(now)) &&
      (paymentDate.None? && !(status == Paid && was.paymentDate.None?) ==> i.paymentDate == was.paymentDate)
  {
    if !st.LiveInvoice(invoiceId) then Fail(st, Failure(Missing))
    else
      var was := st.invoices[invoiceId];
      var date := if paymentDate.Some? then paymentDate
                  else if status == Paid && was.paymentDate.None? then Some(now)
                  else was.paymentDate;
      var i := was.(status := status, paymentDate := date);
      Outcome(Ok(i), st.(invoices := st.invoices[invoiceId := i]))
  }

  function PayInvoice(st: State, now: DateTime, invoiceId: Id, tenantId: Id): (o: Outcome<Invoice>)
    ensures o.result.Err? ==> o.post == st
    ensures !st.LiveInvoice(invoiceId) ==> o.result == Err(Failure(Missing))
    ensures st.LiveInvoice(invoiceId) && st.invoices[invoiceId].tenantId != tenantId ==> o.result == Err(Forbidden)
    ensures st.LiveInvoice(invoiceId) && st.invoices[invoiceId].tenantId == tenantId &&
      st.invoices[invoiceId].status == Paid
      ==> o.result == Err(Failure(AlreadyPaid))
    ensures st.LiveInvoice(invoiceId) && st.invoices[invoiceId].tenantId == tenantId &&
      st.invoices[invoiceId].status == InvoiceStatus.Cancelled
      ==> o.result == Err(Failure(InvoiceCancelled))
    ensures o.result.Ok? <==>
      st.LiveInvoice(invoiceId) && st.invoices[invoiceId].tenantId == tenantId &&
      !st.invoices[invoiceId].status.Paid? && !st.invoices[invoiceId].status.Cancelled?
    ensures o.result.Ok? ==>
      var i := st.invoices[invoiceId].(status := Paid, paymentDate := Some(now));
      o.result.value == i && o.post == st.(invoices := st.invoices[invoiceId := i])
  {
    if !st.LiveInvoice(invoiceId) then Fail(st, Failure(Missing))
    else
      var was := st.invoices[invoiceId];
      if was.tenantId != tenantId then Fail(st, Forbidden)
      else if was.status == Paid then Fail(st, Failure(AlreadyPaid))
      else if was.status == InvoiceStatus.Cancelled then Fail(st, Failure(InvoiceCancelled))
      else
        var i := was.(status := Paid, paymentDate := Some(now));
        Outcome(Ok(i), st.(invoices := st.invoices[invoiceId := i]))
  }

  /** Paying is one-shot: a second payment of the same invoice is refused. */
  lemma PayTwiceFails(st: State, now: DateTime, later: DateTime, invoiceId: Id, tenantId: Id)
    requires PayInvoice(st, now, invoiceId, tenantId).result.Ok?
    ensures PayInvoice(PayInvoice(st, now, invoiceId, tenantId).post, later, invoiceId, tenantId).result
      == Err(Failure(AlreadyPaid))
  {
  }

  /** The unguarded status setter can put a paid invoice back to pending,
      after which the tenant can pay it again. */
  lemma PaidInvoiceCanBeReopened(st: State, now: DateTime, later: DateTime, invoiceId: Id, tenantId: Id)
    requires PayInvoice(st, now, invoiceId, tenantId).result.Ok?
    ensures var paid := PayInvoice(st, now, invoiceId, tenantId).post;
      var reopened := UpdateInvoiceStatus(paid, now, invoiceId, Pending, None).post;
      reopened.invoices[invoiceId].status == Pending &&
      PayInvoice(reopened, later, invoiceId, tenantId).result.Ok?
  {
  }

  function DeleteInvoice(st: State, now: DateTime, invoiceId: Id, ownerId: Id): (o: Outcome<bool>)
    ensures o.result.Err? ==> o.post == st
    ensures !st.LiveInvoice(invoiceId) ==> o == Outcome(Ok(false), st)
    ensures st.LiveInvoice(invoiceId) && st.invoices[invoiceId].ownerId != ownerId ==> o.result == Err(Forbidden)
    ensures st.LiveInvoice(invoiceId) && st.invoices[invoiceId].ownerId == ownerId &&
      st.invoices[invoiceId].status != Draft
      ==> o.result == Err(Failure(NotEditable))
    ensures o.result == Ok(true) <==>
      st.LiveInvoice(invoiceId) && st.invoices[invoiceId].ownerId == ownerId && st.invoices[invoiceId].status == Draft
    ensures o.result == Ok(true) ==>
      var was := st.invoices[invoiceId];
      o.post == st.(invoices := st.invoices[invoiceId := was.(audit := SoftRemoved(was.audit, now, ownerId))])
  {
    if !st.LiveInvoice(invoiceId) then Outcome(Ok(false), st)
    else
      var was := st.invoices[invoiceId];
      if was.ownerId != ownerId then Fail(st, Forbidden)
      else if was.status != Draft then Fail(st, Failure(NotEditable))
      else Outcome(Ok(true), st.(invoices := st.invoices[invoiceId := was.(audit := SoftRemoved(was.audit, now, ownerId))]))
  }

  /** Creation produces pending invoices, so the owner cannot delete an
      invoice just created. */
  lemma CreatedInvoiceNotDeletable(st: State, now: DateTime, later: DateTime, ownerId: Id, req: CreateInvoiceRequest)
    requires st.Valid() && CreateInvoice(st, now, ownerId, req).result.Ok?
    ensures var o := CreateInvoice(st, now, ownerId, req);
      DeleteInvoice(o.post, later, o.result.value, ownerId).result == Err(Failure(NotEditable))
  {
  }

  /** An invoice the overdue sweep picks up at `now`. */
  predicate IsOverdue(i: Invoice, now: DateTime)
  {
    !i.audit.isDeleted && i.status == Pending && Before(i.dueDate, now)
  }

  function OverdueIds(invoices: map<Id, Invoice>, now: DateTime): (S: set<Id>)
    ensures S <= invoices.Keys
    ensures forall k :: k in S <==> k in invoices && IsOverdue(invoices[k], now)
  {
    set k | k in invoices && IsOverdue(invoices[k], now)
  }

  function MarkOverdue(invoices: map<Id, Invoice>, S: set<Id>): (r: map<Id, Invoice>)
    ensures r.Keys == invoices.Keys
    ensures forall k :: k in invoices ==> r[k] == if k in S then invoices[k].(status := Overdue) else invoices[k]
  {
    map k | k in invoices :: if k in S then invoices[k].(status := Overdue) else invoices[k]
  }

  /** UpdateOverdueInvoicesAsync at `now`: exactly the pending, non-deleted
      invoices past their due date become overdue; no commit when none is. */
  function UpdateOverdueInvoices(st: State, now: DateTime): (post: State)
    ensures post == st.(invoices := post.invoices)
    ensures post.invoices.Keys == st.invoices.Keys
    ensures forall k :: k in st.invoices ==>
      post.invoices[k] == if IsOverdue(st.invoices[k], now) then st.invoices[k].(status := Overdue) else st.invoices[k]
    ensures OverdueIds(st.invoices, now) == {} ==> post == st
  {
    var S := OverdueIds(st.invoices, now);
    if S == {} then st else st.(invoices := MarkOverdue(st.invoices, S))
  }

  /** The sweep is idempotent: run again at the same instant it changes nothing. */
  lemma {:induction false} UpdateOverdueIdempotent(st: State, now: DateTime)
    ensures var once := UpdateOverdueInvoices(st, now);
      UpdateOverdueInvoices(once, now) == once
  {
    var once := UpdateOverdueInvoices(st, now);
    forall k | k in once.invoices
      ensures !IsOverdue(once.invoices[k], now)
    {
    }
    assert OverdueIds(once.invoices, now) == {};
  }
}
