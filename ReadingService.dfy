/** The utility-reading operations over the unit of work, each proved to
    compute the outcome `ReadingRules` gives it. */
module ReadingService {
  import opened Core
  import opened Entities
  import opened Store
  import opened Query
  import ReadingRules

  method CreateReading(db: UnitOfWork, now: DateTime, userId: Id, req: ReadingRules.CreateReadingRequest)
    returns (r: Result<ReadingRules.ReadingView>)
    requires db.Snapshot().Valid() && ReadingRules.CreateRequestInRange(req)
    modifies db
    ensures Outcome(r, db.Snapshot()) == ReadingRules.CreateReading(old(db.Snapshot()), now, userId, req)
  {
    if req.propertyId !in db.properties || db.properties[req.propertyId].audit.isDeleted {
      return Err(NotFound);
    }
    if req.tenancyId !in db.tenancies || db.tenancies[req.tenancyId].audit.isDeleted {
      return Err(NotFound);
    }
    var tenancy := db.tenancies[req.tenancyId];
    if tenancy.propertyId != req.propertyId {
      return Err(BadRequest(PropertyMismatch));
    }
    if tenancy.ownerId != userId && tenancy.tenantId != userId {
      return Err(Forbidden);
    }
    var start := StartIndices(db.readings, req.propertyId, req.tenancyId, tenancy);
    if req.electricNewIndex < start.0 {
      return Err(BadRequest(ElectricIndex));
    }
    if req.waterNewIndex < start.1 {
      return Err(BadRequest(WaterIndex));
    }
    var reading := ReadingRules.NewReading(now, userId, req, start);
    var id := db.nextId;
    db.readings := db.readings[id := reading];
    db.nextId := id + 1;
    r := Ok(ReadingRules.View(id, reading));
  }

  /** Looks up the latest reading of the chain and takes its new indices,
      or the tenancy's baseline when the chain is empty. */
  method StartIndices(readings: map<Id, UtilityReading>, propertyId: Id, tenancyId: Id, tenancy: Tenancy)
    returns (start: (int, int))
    ensures start == ReadingRules.StartIndices(readings, propertyId, tenancyId, tenancy)
  {
    var chain := ReadingRules.ChainOf(readings, propertyId, tenancyId);
    if chain == {} {
      return (tenancy.electricOldIndex, tenancy.waterOldIndex);
    }
    var latest := Newest(readings, chain, ReadingRules.ReadingDate);
    start := (readings[latest].electricNewIndex, readings[latest].waterNewIndex);
  }

  method UpdateReading(db: UnitOfWork, readingId: Id, userId: Id, req: ReadingRules.UpdateReadingRequest)
    returns (r: Result<ReadingRules.ReadingView>)
    requires ReadingRules.UpdateRequestInRange(req)
    modifies db
    ensures Outcome(r, db.Snapshot()) == ReadingRules.UpdateReading(old(db.Snapshot()), readingId, userId, req)
  {
    if readingId !in db.readings || db.readings[readingId].audit.isDeleted {
      return Err(NotFound);
    }
    var reading := db.readings[readingId];
    if reading.isCharged {
      return Err(Conflict);
    }
    if reading.tenancyId !in db.tenancies {
      return Err(NotFound);
    }
    var tenancy := db.tenancies[reading.tenancyId];
    if tenancy.ownerId != userId && tenancy.tenantId != userId {
      return Err(Forbidden);
    }
    if req.electricNewIndex < reading.electricOldIndex {
      return Err(BadRequest(ElectricIndex));
    }
    if req.waterNewIndex < reading.waterOldIndex {
      return Err(BadRequest(WaterIndex));
    }
    reading := reading.(electricNewIndex := req.electricNewIndex, waterNewIndex := req.waterNewIndex);
    if req.readingDate.Some? {
      reading := reading.(readingDate := req.readingDate.value);
    }
    db.readings := db.readings[readingId := reading];
    r := Ok(ReadingRules.View(readingId, reading));
  }

  method MarkAsCharged(db: UnitOfWork, readingId: Id, userId: Id) returns (r: Result<bool>)
    modifies db
    ensures Outcome(r, db.Snapshot()) == ReadingRules.MarkAsCharged(old(db.Snapshot()), readingId, userId)
  {
    if readingId !in db.readings || db.readings[readingId].audit.isDeleted {
      return Err(NotFound);
    }
    var reading := db.readings[readingId];
    if reading.tenancyId !in db.tenancies {
      return Err(NotFound);
    }
    if db.tenancies[reading.tenancyId].ownerId != userId {
      return Err(Forbidden);
    }
    if reading.isCharged {
      return Err(Conflict);
    }
    reading := reading.(isCharged := true);
    db.readings := db.readings[readingId := reading];
    r := Ok(true);
  }

  method DeleteReading(db: UnitOfWork, now: DateTime, readingId: Id, userId: Id) returns (r: Result<bool>)
    modifies db
    ensures Outcome(r, db.Snapshot()) == ReadingRules.DeleteReading(old(db.Snapshot()), now, readingId, userId)
  {
    if readingId !in db.readings || db.readings[readingId].audit.isDeleted {
      return Err(NotFound);
    }
    var reading := db.readings[readingId];
    if reading.isCharged {
      return Err(Conflict);
    }
    if reading.tenancyId !in db.tenancies {
      return Err(NotFound);
    }
    if db.tenancies[reading.tenancyId].ownerId != userId {
      return Err(Forbidden);
    }
    reading := reading.(audit := SoftRemoved(reading.audit, now, userId));
    db.readings := db.readings[readingId := reading];
    r := Ok(true);
  }

  method GetReadingById(db: UnitOfWork, readingId: Id, userId: Id) returns (r: Result<ReadingRules.ReadingView>)
    ensures r == ReadingRules.GetReadingById(db.Snapshot(), readingId, userId)
  {
    if readingId !in db.readings || db.readings[readingId].audit.isDeleted {
      return Err(NotFound);
    }
    var reading := db.readings[readingId];
    if reading.tenancyId !in db.tenancies {
      return Err(NotFound);
    }
    var tenancy := db.tenancies[reading.tenancyId];
    if tenancy.ownerId != userId && tenancy.tenantId != userId {
      return Err(Forbidden);
    }
    r := Ok(ReadingRules.View(readingId, reading));
  }

  /** The property check shared by the by-property readers: the property
      exists, and the caller is a party to its first non-deleted tenancy. */
  method CheckPropertyGate(db: UnitOfWork, propertyId: Id, userId: Id) returns (r: Result<bool>)
    ensures r == ReadingRules.PropertyGate(db.Snapshot(), propertyId, userId)
  {
    if propertyId !in db.properties || db.properties[propertyId].audit.isDeleted {
      return Err(NotFound);
    }
    var first := FindLeast(ReadingRules.TenanciesOf(db.tenancies, propertyId));
    if first.None? {
      return Err(NotFound);
    }
    var tenancy := db.tenancies[first.value];
    if tenancy.ownerId != userId && tenancy.tenantId != userId {
      return Err(Forbidden);
    }
    r := Ok(true);
  }

  /** The optional `Where` clauses, one supplied filter at a time. */
  method ApplyFilters(m: map<Id, UtilityReading>, base: set<Id>, f: ReadingRules.ReadingFilter) returns (query: set<Id>)
    requires base <= m.Keys
    ensures forall k :: k in query <==> k in base && ReadingRules.PassesFilter(f, m[k])
  {
    query := base;
    if f.isCharged.Some? {
      query := set k | k in query && m[k].isCharged == f.isCharged.value;
    }
    if f.fromDate.Some? {
      query := set k | k in query && !Before(m[k].readingDate, f.fromDate.value);
    }
    if f.toDate.Some? {
      query := set k | k in query && !Before(f.toDate.value, m[k].readingDate);
    }
  }

  /** Orders the matched readings newest first and cuts out the page. */
  method ListPage(m: map<Id, UtilityReading>, query: set<Id>, pageNumber: int, pageSize: int)
    returns (r: Pagination<ReadingRules.ReadingView>)
    requires query <= m.Keys && !PageRejected(pageNumber, pageSize)
    ensures r == ReadingRules.ListReadings(m, query, pageNumber, pageSize)
  {
    var ordered := ListNewestFirst(m, query, ReadingRules.ReadingDate);
    var page := Page(ordered, pageNumber, pageSize);
    r := Pagination(ReadingRules.Views(m, page), |query|, pageNumber, pageSize);
  }

  method GetReadingsByProperty(db: UnitOfWork, propertyId: Id, userId: Id, pageNumber: int, pageSize: int,
                               f: ReadingRules.ReadingFilter)
    returns (r: Result<Pagination<ReadingRules.ReadingView>>)
    ensures r == ReadingRules.GetReadingsByProperty(db.Snapshot(), propertyId, userId, pageNumber, pageSize, f)
  {
    var gate := CheckPropertyGate(db, propertyId, userId);
    if gate.Err? {
      return Err(gate.error);
    }
    var m := db.readings;
    var query := set k | k in m && m[k].propertyId == propertyId && !m[k].audit.isDeleted;
    query := ApplyFilters(m, query, f);
    assert query == ReadingRules.ReadingsOfProperty(m, propertyId, f);
    if PageRejected(pageNumber, pageSize) {
      return Err(Failure(NegativePaging));
    }
    var page := ListPage(m, query, pageNumber, pageSize);
    r := Ok(page);
  }

  method GetReadingsByTenancy(db: UnitOfWork, tenancyId: Id, userId: Id, pageNumber: int, pageSize: int,
                              f: ReadingRules.ReadingFilter)
    returns (r: Result<Pagination<ReadingRules.ReadingView>>)
    ensures r == ReadingRules.GetReadingsByTenancy(db.Snapshot(), tenancyId, userId, pageNumber, pageSize, f)
  {
    if tenancyId !in db.tenancies || db.tenancies[tenancyId].audit.isDeleted {
      return Err(NotFound);
    }
    var tenancy := db.tenancies[tenancyId];
    if tenancy.ownerId != userId && tenancy.tenantId != userId {
      return Err(Forbidden);
    }
    var m := db.readings;
    var query := set k | k in m && m[k].tenancyId == tenancyId && !m[k].audit.isDeleted;
    query := ApplyFilters(m, query, f);
    assert query == ReadingRules.ReadingsOfTenancy(m, tenancyId, f);
    if PageRejected(pageNumber, pageSize) {
      return Err(Failure(NegativePaging));
    }
    var page := ListPage(m, query, pageNumber, pageSize);
    r := Ok(page);
  }

  method GetLatestReading(db: UnitOfWork, propertyId: Id, userId: Id) returns (r: Result<Option<ReadingRules.ReadingView>>)
    ensures r == ReadingRules.GetLatestReading(db.Snapshot(), propertyId, userId)
  {
    var gate := CheckPropertyGate(db, propertyId, userId);
    if gate.Err? {
      return Err(gate.error);
    }
    var m := db.readings;
    var query := ReadingRules.ReadingsOfProperty(m, propertyId, ReadingRules.NoFilter);
    if query == {} {
      return Ok(None);
    }
    var latest := Newest(m, query, ReadingRules.ReadingDate);
    NewestUnique(m, query, ReadingRules.ReadingDate, latest, NewestOf(m, query, ReadingRules.ReadingDate).value);
    r := Ok(Some(ReadingRules.View(latest, m[latest])));
  }
}
