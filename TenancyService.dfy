/** The tenancy operations over the unit of work. Each one loads the records
    it needs into locals, returns at the first guard that fails without
    touching the tables, changes its locals, and assigns the tables last. */
module TenancyService {
  import opened Core
  import opened Entities
  import opened Store
  import opened Query
  import TenancyRules

  method CreateTenancy(db: UnitOfWork, now: DateTime, ownerId: Id, req: TenancyRules.CreateTenancyRequest)
    returns (r: Result<Id>)
    requires db.Snapshot().Valid() && TenancyRules.CreateRequestInRange(req)
    modifies db
    ensures Outcome(r, db.Snapshot()) == TenancyRules.CreateTenancy(old(db.Snapshot()), now, ownerId, req)
  {
    if ownerId !in db.accounts || db.accounts[ownerId].audit.isDeleted {
      return Err(NotFound);
    }
    var owner := db.accounts[ownerId];
    if owner.role != Owner {
      return Err(Forbidden);
    }
    if req.propertyId !in db.properties || db.properties[req.propertyId].audit.isDeleted {
      return Err(NotFound);
    }
    var property := db.properties[req.propertyId];
    if property.ownerId != ownerId {
      return Err(Forbidden);
    }
    if property.status == Occupied {
      return Err(Conflict);
    }
    if req.tenantId !in db.accounts || db.accounts[req.tenantId].audit.isDeleted {
      return Err(NotFound);
    }
    var tenant := db.accounts[req.tenantId];
    if tenant.role != User {
      return Err(BadRequest(TenantRole));
    }
    var activeOnProperty := set k | k in db.tenancies && db.tenancies[k].propertyId == req.propertyId &&
                                    db.tenancies[k].status == Active && !db.tenancies[k].audit.isDeleted;
    var existing := FindLeast(activeOnProperty);
    if existing.Some? {
      assert db.Snapshot().HasActiveTenancy(req.propertyId) by {
        assert existing.value in activeOnProperty;
      }
      return Err(Conflict);
    }
    assert !db.Snapshot().HasActiveTenancy(req.propertyId) by {
      forall k | k in db.tenancies
        ensures !(db.tenancies[k].propertyId == req.propertyId && db.tenancies[k].status == Active &&
                  !db.tenancies[k].audit.isDeleted)
      {
        assert k !in activeOnProperty;
      }
    }
    if !Before(req.startDate, req.endDate) {
      return Err(BadRequest(DateOrder));
    }
    var tenancy := TenancyRules.NewTenancy(now, ownerId, req);
    var id := db.nextId;
    db.tenancies := db.tenancies[id := tenancy];
    db.nextId := id + 1;
    r := Ok(id);
  }

  method UpdateTenancy(db: UnitOfWork, tenancyId: Id, userId: Id, req: TenancyRules.UpdateTenancyRequest)
    returns (r: Result<Tenancy>)
    requires TenancyRules.UpdateRequestInRange(req)
    modifies db
    ensures Outcome(r, db.Snapshot()) == TenancyRules.UpdateTenancy(old(db.Snapshot()), tenancyId, userId, req)
  {
    if tenancyId !in db.tenancies || db.tenancies[tenancyId].audit.isDeleted {
      return Err(NotFound);
    }
    var tenancy := db.tenancies[tenancyId];
    if tenancy.ownerId != userId {
      return Err(Forbidden);
    }
    if tenancy.status == Active || tenancy.status == Expired {
      return Err(Conflict);
    }
    if req.startDate.Some? {
      tenancy := tenancy.(startDate := req.startDate.value);
    }
    if req.endDate.Some? {
      tenancy := tenancy.(endDate := req.endDate.value);
    }
    if req.endDate.Some? && req.startDate.Some? && !Before(req.startDate.value, req.endDate.value) {
      return Err(BadRequest(DateOrder));
    }
    if !Blank(req.contractUrl) {
      tenancy := tenancy.(contractUrl := req.contractUrl.value);
    }
    if req.electricUnitPrice.Some? {
      tenancy := tenancy.(electricUnitPrice := req.electricUnitPrice.value);
    }
    if req.waterUnitPrice.Some? {
      tenancy := tenancy.(waterUnitPrice := req.waterUnitPrice.value);
    }
    db.tenancies := db.tenancies[tenancyId := tenancy];
    r := Ok(tenancy);
  }

  method UpdateTenancyStatus(db: UnitOfWork, tenancyId: Id, userId: Id, newStatus: TenancyStatus)
    returns (r: Result<Tenancy>)
    modifies db
    ensures Outcome(r, db.Snapshot()) == TenancyRules.UpdateTenancyStatus(old(db.Snapshot()), tenancyId, userId, newStatus)
  {
    if tenancyId !in db.tenancies || db.tenancies[tenancyId].audit.isDeleted {
      return Err(NotFound);
    }
    var tenancy := db.tenancies[tenancyId];
    if tenancy.ownerId != userId {
      return Err(Forbidden);
    }
    if !TenancyRules.IsValidStatusTransition(tenancy.status, newStatus) {
      return Err(BadRequest(Transition));
    }
    if newStatus == Active && !tenancy.isTenantConfirmed {
      return Err(BadRequest(NotConfirmed));
    }
    var properties := db.properties;
    if newStatus == Active && tenancy.propertyId in properties {
      properties := properties[tenancy.propertyId := properties[tenancy.propertyId].(status := Occupied)];
    }
    if (newStatus == Expired || newStatus == TenancyStatus.Cancelled) && tenancy.propertyId in properties {
      properties := properties[tenancy.propertyId := properties[tenancy.propertyId].(status := Available)];
    }
    tenancy := tenancy.(status := newStatus);
    db.tenancies, db.properties := db.tenancies[tenancyId := tenancy], properties;
    r := Ok(tenancy);
  }

  method TenantConfirmTenancy(db: UnitOfWork, tenancyId: Id, tenantId: Id) returns (r: Result<Tenancy>)
    modifies db
    ensures Outcome(r, db.Snapshot()) == TenancyRules.TenantConfirmTenancy(old(db.Snapshot()), tenancyId, tenantId)
  {
    if tenancyId !in db.tenancies || db.tenancies[tenancyId].audit.isDeleted {
      return Err(NotFound);
    }
    var tenancy := db.tenancies[tenancyId];
    if tenancy.tenantId != tenantId {
      return Err(Forbidden);
    }
    if tenancy.status != PendingConfirmation {
      return Err(BadRequest(NotPending));
    }
    if tenancy.isTenantConfirmed {
      return Err(Conflict);
    }
    tenancy := tenancy.(isTenantConfirmed := true, status := Active);
    var properties := db.properties;
    if tenancy.propertyId in properties {
      properties := properties[tenancy.propertyId := properties[tenancy.propertyId].(status := Occupied)];
    }
    db.tenancies, db.properties := db.tenancies[tenancyId := tenancy], properties;
    r := Ok(tenancy);
  }

  method CancelTenancy(db: UnitOfWork, tenancyId: Id, userId: Id) returns (r: Result<bool>)
    modifies db
    ensures Outcome(r, db.Snapshot()) == TenancyRules.CancelTenancy(old(db.Snapshot()), tenancyId, userId)
  {
    if tenancyId !in db.tenancies || db.tenancies[tenancyId].audit.isDeleted {
      return Err(NotFound);
    }
    var tenancy := db.tenancies[tenancyId];
    if tenancy.ownerId != userId && tenancy.tenantId != userId {
      return Err(Forbidden);
    }
    if tenancy.status == Expired || tenancy.status == TenancyStatus.Cancelled {
      return Err(Conflict);
    }
    tenancy := tenancy.(status := TenancyStatus.Cancelled);
    var properties := db.properties;
    if tenancy.propertyId in properties {
      properties := properties[tenancy.propertyId := properties[tenancy.propertyId].(status := Available)];
    }
    db.tenancies, db.properties := db.tenancies[tenancyId := tenancy], properties;
    r := Ok(true);
  }

  method DeleteTenancy(db: UnitOfWork, now: DateTime, tenancyId: Id, ownerId: Id) returns (r: Result<bool>)
    modifies db
    ensures Outcome(r, db.Snapshot()) == TenancyRules.DeleteTenancy(old(db.Snapshot()), now, tenancyId, ownerId)
  {
    if tenancyId !in db.tenancies || db.tenancies[tenancyId].audit.isDeleted {
      return Err(NotFound);
    }
    var tenancy := db.tenancies[tenancyId];
    if tenancy.ownerId != ownerId {
      return Err(Forbidden);
    }
    if tenancy.status == Active {
      return Err(Conflict);
    }
    tenancy := tenancy.(audit := SoftRemoved(tenancy.audit, now, ownerId));
    db.tenancies := db.tenancies[tenancyId := tenancy];
    r := Ok(true);
  }

  /** Loads the due tenancies, expires them, and commits once at the end. */
  method UpdateExpiredTenancies(db: UnitOfWork, now: DateTime) returns (count: int)
    modifies db
    ensures Outcome(Ok(count), db.Snapshot()) == TenancyRules.UpdateExpiredTenancies(old(db.Snapshot()), now)
  {
    var due := TenancyRules.DueIds(db.tenancies, now);
    if due == {} {
      return 0;
    }
    var tenancies, properties := ExpireEach(db.tenancies, db.properties, due);
    db.tenancies, db.properties := tenancies, properties;
    count := |due|;
  }

  /** Visits the tenancies `due` one at a time, expiring each and freeing its property. */
  method ExpireEach(loaded: map<Id, Tenancy>, loadedProperties: map<Id, Property>, due: set<Id>)
    returns (tenancies: map<Id, Tenancy>, properties: map<Id, Property>)
    requires due <= loaded.Keys
    ensures tenancies == TenancyRules.ExpireAll(loaded, due)
    ensures properties == TenancyRules.FreeAll(loadedProperties, TenancyRules.PropertiesOf(loaded, due))
  {
    tenancies := ExpireTenancies(loaded, due);
    properties := FreeProperties(loaded, loadedProperties, due);
  }

  method ExpireTenancies(loaded: map<Id, Tenancy>, due: set<Id>) returns (tenancies: map<Id, Tenancy>)
    requires due <= loaded.Keys
    ensures tenancies == TenancyRules.ExpireAll(loaded, due)
  {
    tenancies := loaded;
    var done, rest := {}, due;
    while rest != {}
      invariant done <= due && rest == due - done
      invariant tenancies == TenancyRules.ExpireAll(loaded, done)
      decreases |rest|
    {
      var k :| k in rest;
      ExpireOneMore(loaded, done, k);
      tenancies := tenancies[k := loaded[k].(status := Expired)];
      done, rest := done + {k}, rest - {k};
    }
    assert done == due;
  }

  method FreeProperties(loaded: map<Id, Tenancy>, loadedProperties: map<Id, Property>, due: set<Id>)
    returns (properties: map<Id, Property>)
    requires due <= loaded.Keys
    ensures properties == TenancyRules.FreeAll(loadedProperties, TenancyRules.PropertiesOf(loaded, due))
  {
    properties := loadedProperties;
    var done, rest := {}, due;
    while rest != {}
      invariant done <= due && rest == due - done
      invariant properties == TenancyRules.FreeAll(loadedProperties, TenancyRules.PropertiesOf(loaded, done))
      decreases |rest|
    {
      var k :| k in rest;
      FreeOneMore(loadedProperties, loaded, done, k);
      var propertyId := loaded[k].propertyId;
      if propertyId in properties {
        properties := properties[propertyId := properties[propertyId].(status := Available)];
      }
      done, rest := done + {k}, rest - {k};
    }
    assert done == due;
  }

  lemma ExpireOneMore(tenancies: map<Id, Tenancy>, done: set<Id>, k: Id)
    requires k in tenancies && k !in done
    ensures TenancyRules.ExpireAll(tenancies, done + {k})
      == TenancyRules.ExpireAll(tenancies, done)[k := tenancies[k].(status := Expired)]
  {
  }

  lemma FreeOneMore(properties: map<Id, Property>, tenancies: map<Id, Tenancy>, done: set<Id>, k: Id)
    requires done <= tenancies.Keys && k in tenancies
    ensures var p := tenancies[k].propertyId;
      var before := TenancyRules.FreeAll(properties, TenancyRules.PropertiesOf(tenancies, done));
      TenancyRules.FreeAll(properties, TenancyRules.PropertiesOf(tenancies, done + {k}))
        == if p in before then before[p := before[p].(status := Available)] else before
  {
    var p := tenancies[k].propertyId;
    assert TenancyRules.PropertiesOf(tenancies, done + {k}) == TenancyRules.PropertiesOf(tenancies, done) + {p};
  }

  /** Applies the filters one by one, as the query is narrowed in the source,
      then the caller restriction, the ordering and the page. */
  method GetTenancies(db: UnitOfWork, userId: Id, pageNumber: int, pageSize: int, f: TenancyRules.TenancyFilter)
    returns (r: Result<Pagination<Tenancy>>)
    ensures r == TenancyRules.GetTenancies(db.Snapshot(), userId, pageNumber, pageSize, f)
  {
    var m := db.tenancies;
    var query := ApplyFilters(m, f);
    query := ApplyVisibility(db.accounts, m, query, userId);
    assert query == TenancyRules.MatchingTenancies(db.Snapshot(), userId, f);
    var ordered := ListNewestFirst(m, query, TenancyRules.TenancyCreatedAt);
    if PageRejected(pageNumber, pageSize) {
      return Err(Failure(NegativePaging));
    }
    var page := Page(ordered, pageNumber, pageSize);
    r := Ok(Pagination(Rows(m, page), |query|, pageNumber, pageSize));
  }

  /** A caller who is not an admin sees only the tenancies they own or rent. */
  method ApplyVisibility(accounts: map<Id, Account>, m: map<Id, Tenancy>, base: set<Id>, userId: Id)
    returns (query: set<Id>)
    requires base <= m.Keys
    ensures forall k :: k in query <==> (k in base &&
      (userId in accounts && accounts[userId].role != Admin ==> m[k].ownerId == userId || m[k].tenantId == userId))
  {
    query := base;
    if userId in accounts && accounts[userId].role != Admin {
      query := set k | k in query && (m[k].ownerId == userId || m[k].tenantId == userId);
    }
  }

  /** The `Where` clauses of GetTenanciesAsync, one supplied filter at a time. */
  method ApplyFilters(m: map<Id, Tenancy>, f: TenancyRules.TenancyFilter) returns (query: set<Id>)
    ensures forall k :: k in query <==> k in m && TenancyRules.PassesFilter(f, m[k])
  {
    query := ApplyKeyFilters(m, f);
    query := ApplyStateFilters(m, query, f);
    query := ApplyDateFilters(m, query, f);
  }

  /** The status and confirmation filters. */
  method ApplyStateFilters(m: map<Id, Tenancy>, base: set<Id>, f: TenancyRules.TenancyFilter) returns (query: set<Id>)
    requires base <= m.Keys
    ensures forall k :: k in query <==> (k in base &&
      (f.status.Some? ==> m[k].status == f.status.value) &&
      (f.isTenantConfirmed.Some? ==> m[k].isTenantConfirmed == f.isTenantConfirmed.value))
  {
    query := base;
    if f.status.Some? {
      query := set k | k in query && m[k].status == f.status.value;
    }
    if f.isTenantConfirmed.Some? {
      query := set k | k in query && m[k].isTenantConfirmed == f.isTenantConfirmed.value;
    }
  }

  /** The inclusive bounds on the start date. */
  method ApplyDateFilters(m: map<Id, Tenancy>, base: set<Id>, f: TenancyRules.TenancyFilter) returns (query: set<Id>)
    requires base <= m.Keys
    ensures forall k :: k in query <==> (k in base &&
      (f.startDateFrom.Some? ==> !Before(m[k].startDate, f.startDateFrom.value)) &&
      (f.startDateTo.Some? ==> !Before(f.startDateTo.value, m[k].startDate)))
  {
    query := base;
    if f.startDateFrom.Some? {
      query := set k | k in query && !Before(m[k].startDate, f.startDateFrom.value);
    }
    if f.startDateTo.Some? {
      query := set k | k in query && !Before(f.startDateTo.value, m[k].startDate);
    }
  }

  method ApplyKeyFilters(m: map<Id, Tenancy>, f: TenancyRules.TenancyFilter) returns (query: set<Id>)
    ensures forall k :: k in query <==> k in m && TenancyRules.PassesKeyFilters(f, m[k])
  {
    query := if f.isDeleted.Some? then set k | k in m && m[k].audit.isDeleted == f.isDeleted.value
             else set k | k in m && !m[k].audit.isDeleted;
    if f.propertyId.Some? {
      query := set k | k in query && m[k].propertyId == f.propertyId.value;
    }
    if f.tenantId.Some? {
      query := set k | k in query && m[k].tenantId == f.tenantId.value;
    }
    if f.ownerId.Some? {
      query := set k | k in query && m[k].ownerId == f.ownerId.value;
    }
  }
}
