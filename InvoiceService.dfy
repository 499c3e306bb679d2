/** The invoice operations over the unit of work, each proved to compute the
    outcome `InvoiceRules` gives it. */
module InvoiceService {
  import opened Core
  import opened Entities
  import opened Store
  import opened Query
  import ReadingRules
  import InvoiceRules

  method CreateInvoice(db: UnitOfWork, now: DateTime, ownerId: Id, req: InvoiceRules.CreateInvoiceRequest)
    returns (r: Result<Id>)
    requires db.Snapshot().Valid()
    modifies db
    ensures Outcome(r, db.Snapshot()) == InvoiceRules.CreateInvoice(old(db.Snapshot()), now, ownerId, req)
  {
    if req.tenancyId !in db.tenancies || db.tenancies[req.tenancyId].audit.isDeleted {
      return Err(Failure(Missing));
    }
    var tenancy := db.tenancies[req.tenancyId];
    if tenancy.propertyId !in db.properties || db.properties[tenancy.propertyId].audit.isDeleted {
      return Err(Failure(Missing));
    }
    var property := db.properties[tenancy.propertyId];
    if property.ownerId != ownerId {
      return Err(Forbidden);
    }
    var start := BillingStart(db.readings, tenancy.propertyId, req.tenancyId);
    if req.electricNewIndex < start.0 {
      return Err(Failure(ElectricIndex));
    }
    if req.waterNewIndex < start.1 {
      return Err(Failure(WaterIndex));
    }
    var readingId := db.nextId;
    var reading := InvoiceRules.InvoiceReading(now, ownerId, tenancy, req.tenancyId, req, start);
    var invoiceId := readingId + 1;
    var invoice := InvoiceRules.NewInvoice(now, ownerId, tenancy, req, property.monthlyPrice, start, readingId);
    db.readings := db.readings[readingId := reading];
    db.invoices := db.invoices[invoiceId := invoice];
    db.nextId := invoiceId + 1;
    r := Ok(invoiceId);
  }

  /** The new indices of the tenancy's latest reading, or zero. */
  method BillingStart(readings: map<Id, UtilityReading>, propertyId: Id, tenancyId: Id) returns (start: (int, int))
    ensures start == InvoiceRules.BillingStart(readings, propertyId, tenancyId)
  {
    var chain := ReadingRules.ChainOf(readings, propertyId, tenancyId);
    if chain == {} {
      return (0, 0);
    }
    var latest := Newest(readings, chain, ReadingRules.ReadingDate);
    start := (readings[latest].electricNewIndex, readings[latest].waterNewIndex);
  }

  /** Assigns the supplied fields one by one, recomputes the amounts when an
      amount changed, and copies supplied indices into the linked reading. */
  method UpdateInvoice(db: UnitOfWork, invoiceId: Id, ownerId: Id, req: InvoiceRules.UpdateInvoiceRequest)
    returns (r: Result<Invoice>)
    modifies db
    ensures Outcome(r, db.Snapshot()) == InvoiceRules.UpdateInvoice(old(db.Snapshot()), invoiceId, ownerId, req)
  {
    if invoiceId !in db.invoices || db.invoices[invoiceId].audit.isDeleted {
      return Err(Failure(Missing));
    }
    var invoice := db.invoices[invoiceId];
    if invoice.ownerId != ownerId {
      return Err(Forbidden);
    }
    if invoice.status != Draft && invoice.status != Pending {
      return Err(Failure(NotEditable));
    }
    invoice := EditFields(invoice, req);
    var edited, needRecalculate := EditMeters(invoice, req);
    if edited.Err? {
      return edited;
    }
    invoice := edited.value;
    var readings := db.readings;
    if needRecalculate || req.otherFees.Some? {
      invoice := InvoiceRules.Recalculated(invoice);
      readings := CopyIndices(readings, invoice.utilityReadingId, req);
    }
    db.invoices, db.readings := db.invoices[invoiceId := invoice], readings;
    r := Ok(invoice);
  }

  /** The supplied meter indices, each checked against its old index, and
      the supplied unit prices; `needRecalculate` says whether any was given. */
  method EditMeters(was: Invoice, req: InvoiceRules.UpdateInvoiceRequest)
    returns (r: Result<Invoice>, needRecalculate: bool)
    ensures (req.electricNewIndex.Some? && req.electricNewIndex.value < was.electricOldIndex) ==>
      r == Err(Failure(ElectricIndex))
    ensures (!(req.electricNewIndex.Some? && req.electricNewIndex.value < was.electricOldIndex) &&
             req.waterNewIndex.Some? && req.waterNewIndex.value < was.waterOldIndex) ==>
      r == Err(Failure(WaterIndex))
    ensures ((req.electricNewIndex.Some? ==> was.electricOldIndex <= req.electricNewIndex.value) &&
             (req.waterNewIndex.Some? ==> was.waterOldIndex <= req.waterNewIndex.value)) ==>
      r == Ok(was.(electricNewIndex := OrElse(req.electricNewIndex, was.electricNewIndex),
                   waterNewIndex := OrElse(req.waterNewIndex, was.waterNewIndex),
                   electricUnitPrice := OrElse(req.electricUnitPrice, was.electricUnitPrice),
                   waterUnitPrice := OrElse(req.waterUnitPrice, was.waterUnitPrice)))
    ensures r.Ok? ==> needRecalculate == (req.electricNewIndex.Some? || req.waterNewIndex.Some? ||
                                          req.electricUnitPrice.Some? || req.waterUnitPrice.Some?)
  {
    var invoice := was;
    needRecalculate := false;
    if req.electricNewIndex.Some? {
      if req.electricNewIndex.value < invoice.electricOldIndex {
        return Err(Failure(ElectricIndex)), needRecalculate;
      }
      invoice := invoice.(electricNewIndex := req.electricNewIndex.value);
      needRecalculate := true;
    }
    if req.waterNewIndex.Some? {
      if req.waterNewIndex.value < invoice.waterOldIndex {
        return Err(Failure(WaterIndex)), needRecalculate;
      }
      invoice := invoice.(waterNewIndex := req.waterNewIndex.value);
      needRecalculate := true;
    }
    if req.electricUnitPrice.Some? {
      invoice := invoice.(electricUnitPrice := req.electricUnitPrice.value);
      needRecalculate := true;
    }
    if req.waterUnitPrice.Some? {
      invoice := invoice.(waterUnitPrice := req.waterUnitPrice.value);
      needRecalculate := true;
    }
    r := Ok(invoice);
  }

  /** Writes the supplied new indices into the linked reading, if it is there and not deleted. */
  method CopyIndices(loaded: map<Id, UtilityReading>, readingId: Id, req: InvoiceRules.UpdateInvoiceRequest)
    returns (readings: map<Id, UtilityReading>)
    ensures readings == InvoiceRules.ReadingsAfterUpdate(loaded, readingId, req)
  {
    readings := loaded;
    if readingId in readings && !readings[readingId].audit.isDeleted {
      var reading := readings[readingId];
      if req.electricNewIndex.Some? {
        reading := reading.(electricNewIndex := req.electricNewIndex.value);
      }
      if req.waterNewIndex.Some? {
        reading := reading.(waterNewIndex := req.waterNewIndex.value);
      }
      readings := readings[readingId := reading];
    }
  }

  /** The dates and the other fees, which need no check. */
  method EditFields(was: Invoice, req: InvoiceRules.UpdateInvoiceRequest) returns (invoice: Invoice)
    ensures invoice == was.(billingPeriodStart := OrElse(req.billingPeriodStart, was.billingPeriodStart),
                            billingPeriodEnd := OrElse(req.billingPeriodEnd, was.billingPeriodEnd),
                            dueDate := OrElse(req.dueDate, was.dueDate),
                            otherFees := OrElse(req.otherFees, was.otherFees))
  {
    invoice := was;
    if req.billingPeriodStart.Some? {
      invoice := invoice.(billingPeriodStart := req.billingPeriodStart.value);
    }
    if req.billingPeriodEnd.Some? {
      invoice := invoice.(billingPeriodEnd := req.billingPeriodEnd.value);
    }
    if req.dueDate.Some? {
      invoice := invoice.(dueDate := req.dueDate.value);
    }
    if req.otherFees.Some? {
      invoice := invoice.(otherFees := req.otherFees.value);
    }
  }

  method UpdateInvoiceStatus(db: UnitOfWork, now: DateTime, invoiceId: Id, status: InvoiceStatus, paymentDate: Option<DateTime>)
    returns (r: Result<Invoice>)
    modifies db
    ensures Outcome(r, db.Snapshot()) == InvoiceRules.UpdateInvoiceStatus(old(db.Snapshot()), now, invoiceId, status, paymentDate)
  {
    if invoiceId !in db.invoices || db.invoices[invoiceId].audit.isDeleted {
      return Err(Failure(Missing));
    }
    var invoice := db.invoices[invoiceId];
    invoice := invoice.(status := status);
    if paymentDate.Some? {
      invoice := invoice.(paymentDate := paymentDate);
    }
    if status == Paid && invoice.paymentDate.None? {
      invoice := invoice.(paymentDate := Some(now));
    }
    db.invoices := db.invoices[invoiceId := invoice];
    r := Ok(invoice);
  }

  method PayInvoice(db: UnitOfWork, now: DateTime, invoiceId: Id, tenantId: Id) returns (r: Result<Invoice>)
    modifies db
    ensures Outcome(r, db.Snapshot()) == InvoiceRules.PayInvoice(old(db.Snapshot()), now, invoiceId, tenantId)
  {
    if invoiceId !in db.invoices || db.invoices[invoiceId].audit.isDeleted {
      return Err(Failure(Missing));
    }
    var invoice := db.invoices[invoiceId];
    if invoice.tenantId != tenantId {
      return Err(Forbidden);
    }
    if invoice.status == Paid {
      return Err(Failure(AlreadyPaid));
    }
    if invoice.status == InvoiceStatus.Cancelled {
      return Err(Failure(InvoiceCancelled));
    }
    invoice := invoice.(status := Paid, paymentDate := Some(now));
    db.invoices := db.invoices[invoiceId := invoice];
    r := Ok(invoice);
  }

  method DeleteInvoice(db: UnitOfWork, now: DateTime, invoiceId: Id, ownerId: Id) returns (r: Result<bool>)
    modifies db
    ensures Outcome(r, db.Snapshot()) == InvoiceRules.DeleteInvoice(old(db.Snapshot()), now, invoiceId, ownerId)
  {
    if invoiceId !in db.invoices || db.invoices[invoiceId].audit.isDeleted {
      return Ok(false);
    }
    var invoice := db.invoices[invoiceId];
    if invoice.ownerId != ownerId {
      return Err(Forbidden);
    }
    if invoice.status != Draft {
      return Err(Failure(NotEditable));
    }
    invoice := invoice.(audit := SoftRemoved(invoice.audit, now, ownerId));
    db.invoices := db.invoices[invoiceId := invoice];
    r := Ok(true);
  }

  /** Loads the overdue invoices, marks each one, and commits only if there was one. */
  method UpdateOverdueInvoices(db: UnitOfWork, now: DateTime)
    modifies db
    ensures db.Snapshot() == InvoiceRules.UpdateOverdueInvoices(old(db.Snapshot()), now)
  {
    var overdue := InvoiceRules.OverdueIds(db.invoices, now);
    if overdue == {} {
      return;
    }
    var invoices := MarkEach(db.invoices, overdue);
    db.invoices := invoices;
  }

  /** Visits the invoices `due` one at a time, setting each to overdue. */
  method MarkEach(loaded: map<Id, Invoice>, due: set<Id>) returns (invoices: map<Id, Invoice>)
    requires due <= loaded.Keys
    ensures invoices == InvoiceRules.MarkOverdue(loaded, due)
  {
    invoices := loaded;
    var done, rest := {}, due;
    while rest != {}
      invariant done <= due && rest == due - done
      invariant invoices == InvoiceRules.MarkOverdue(loaded, done)
      decreases |rest|
    {
      var k :| k in rest;
      MarkOneMore(loaded, done, k);
      invoices := invoices[k := loaded[k].(status := Overdue)];
      done, rest := done + {k}, rest - {k};
    }
    assert done == due;
  }

  lemma MarkOneMore(invoices: map<Id, Invoice>, done: set<Id>, k: Id)
    requires k in invoices && k !in done
    ensures InvoiceRules.MarkOverdue(invoices, done + {k})
      == InvoiceRules.MarkOverdue(invoices, done)[k := invoices[k].(status := Overdue)]
  {
  }
}
