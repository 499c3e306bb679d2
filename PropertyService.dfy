/** The property operations over the unit of work, each proved to compute
    the outcome `PropertyRules` gives it. */
module PropertyService {
  import opened Core
  import opened Entities
  import opened Store
  import opened Query
  import PropertyRules

  method CreateProperty(db: UnitOfWork, now: DateTime, ownerId: Id, req: PropertyRules.CreatePropertyRequest)
    returns (r: Result<Id>)
    requires db.Snapshot().Valid() && PropertyRules.CreateRequestInRange(req)
    modifies db
    ensures Outcome(r, db.Snapshot()) == PropertyRules.CreateProperty(old(db.Snapshot()), now, ownerId, req)
  {
    if ownerId !in db.accounts || db.accounts[ownerId].audit.isDeleted {
      return Err(NotFound);
    }
    var owner := db.accounts[ownerId];
    if owner.role != Owner {
      return Err(Forbidden);
    }
    if !owner.isOwnerApproved {
      return Err(Forbidden);
    }
    var property := PropertyRules.NewProperty(now, ownerId, req);
    var id := db.nextId;
    db.properties := db.properties[id := property];
    db.nextId := id + 1;
    r := Ok(id);
  }

  /** Assigns the supplied fields one by one; blank titles and addresses are skipped. */
  method UpdateProperty(db: UnitOfWork, propertyId: Id, ownerId: Id, req: PropertyRules.UpdatePropertyRequest)
    returns (r: Result<Property>)
    requires PropertyRules.UpdateRequestInRange(req)
    modifies db
    ensures Outcome(r, db.Snapshot()) == PropertyRules.UpdateProperty(old(db.Snapshot()), propertyId, ownerId, req)
  {
    if propertyId !in db.properties || db.properties[propertyId].audit.isDeleted {
      return Err(NotFound);
    }
    var property := db.properties[propertyId];
    if property.ownerId != ownerId {
      return Err(Forbidden);
    }
    if !Blank(req.title) {
      property := property.(title := req.title.value);
    }
    if req.description.Some? {
      property := property.(description := req.description.value);
    }
    if !Blank(req.address) {
      property := property.(address := req.address.value);
    }
    if req.monthlyPrice.Some? {
      property := property.(monthlyPrice := req.monthlyPrice.value);
    }
    if req.areaSqm.Some? {
      property := property.(areaSqm := req.areaSqm.value);
    }
    if req.imageUrl.Some? {
      property := property.(imageUrl := req.imageUrl.value);
    }
    db.properties := db.properties[propertyId := property];
    r := Ok(property);
  }

  method UpdatePropertyStatus(db: UnitOfWork, propertyId: Id, ownerId: Id, status: PropertyStatus) returns (r: Result<bool>)
    modifies db
    ensures Outcome(r, db.Snapshot()) == PropertyRules.UpdatePropertyStatus(old(db.Snapshot()), propertyId, ownerId, status)
  {
    if propertyId !in db.properties || db.properties[propertyId].audit.isDeleted {
      return Err(NotFound);
    }
    var property := db.properties[propertyId];
    if property.ownerId != ownerId {
      return Err(Forbidden);
    }
    db.properties := db.properties[propertyId := property.(status := status)];
    r := Ok(true);
  }

  method GetPropertyById(db: UnitOfWork, propertyId: Id) returns (r: Result<Property>)
    ensures r == PropertyRules.GetPropertyById(db.Snapshot(), propertyId)
  {
    if propertyId !in db.properties || db.properties[propertyId].audit.isDeleted {
      return Err(NotFound);
    }
    r := Ok(db.properties[propertyId]);
  }

  /** Whether some non-deleted active tenancy references the property
      (`FirstOrDefaultAsync(...) != null`). */
  method FindActiveTenancy(db: UnitOfWork, propertyId: Id) returns (found: bool)
    ensures found == db.Snapshot().HasActiveTenancy(propertyId)
  {
    var m := db.tenancies;
    var active := set k | k in m && m[k].propertyId == propertyId && m[k].status == Active && !m[k].audit.isDeleted;
    if active == {} {
      assert forall k :: (k in m && m[k].propertyId == propertyId && m[k].status == Active && !m[k].audit.isDeleted
        ==> k in active);
      return false;
    }
    var k :| k in active;
    assert m[k].propertyId == propertyId && m[k].status == Active && !m[k].audit.isDeleted;
    return true;
  }

  method DeleteProperty(db: UnitOfWork, now: DateTime, propertyId: Id, ownerId: Id) returns (r: Result<bool>)
    modifies db
    ensures Outcome(r, db.Snapshot()) == PropertyRules.DeleteProperty(old(db.Snapshot()), now, propertyId, ownerId)
  {
    if propertyId !in db.properties || db.properties[propertyId].audit.isDeleted {
      return Err(NotFound);
    }
    var property := db.properties[propertyId];
    if property.ownerId != ownerId {
      return Err(Forbidden);
    }
    if property.status == Occupied {
      var active := FindActiveTenancy(db, propertyId);
      if active {
        return Err(Conflict);
      }
    }
    property := property.(audit := SoftRemoved(property.audit, now, ownerId));
    db.properties := db.properties[propertyId := property];
    r := Ok(true);
  }

  method MarkOccupied(db: UnitOfWork, propertyId: Id) returns (r: Result<bool>)
    modifies db
    ensures Outcome(r, db.Snapshot()) == PropertyRules.MarkOccupied(old(db.Snapshot()), propertyId)
  {
    if propertyId !in db.properties || db.properties[propertyId].audit.isDeleted {
      return Err(NotFound);
    }
    var property := db.properties[propertyId];
    if property.status == Occupied {
      return Err(Conflict);
    }
    db.properties := db.properties[propertyId := property.(status := Occupied)];
    r := Ok(true);
  }

  method MarkAvailable(db: UnitOfWork, propertyId: Id, ownerId: Id) returns (r: Result<bool>)
    modifies db
    ensures Outcome(r, db.Snapshot()) == PropertyRules.MarkAvailable(old(db.Snapshot()), propertyId, ownerId)
  {
    if propertyId !in db.properties || db.properties[propertyId].audit.isDeleted {
      return Err(NotFound);
    }
    var property := db.properties[propertyId];
    if property.ownerId != ownerId {
      return Err(Forbidden);
    }
    var active := FindActiveTenancy(db, propertyId);
    if active {
      return Err(Conflict);
    }
    db.properties := db.properties[propertyId := property.(status := Available)];
    r := Ok(true);
  }

  method GetProperties(db: UnitOfWork, pageNumber: int, pageSize: int, f: PropertyRules.PropertyFilter)
    returns (r: Result<Pagination<Property>>)
    ensures r == PropertyRules.GetProperties(db.Snapshot(), pageNumber, pageSize, f)
  {
    var m := db.properties;
    var query := ApplyKeyFilters(m, f);
    query := ApplyTextFilters(m, query, f);
    query := ApplyRangeFilters(m, query, f);
    assert query == PropertyRules.MatchingProperties(m, f);
    var ordered := ListNewestFirst(m, query, PropertyRules.PropertyCreatedAt);
    if PageRejected(pageNumber, pageSize) {
      return Err(Failure(NegativePaging));
    }
    var page := Page(ordered, pageNumber, pageSize);
    r := Ok(Pagination(Rows(m, page), |query|, pageNumber, pageSize));
  }

  /** The deletion flag, then the owner and status filters. */
  method ApplyKeyFilters(m: map<Id, Property>, f: PropertyRules.PropertyFilter) returns (query: set<Id>)
    ensures forall k :: k in query <==> k in m && PropertyRules.PassesKeyFilters(f, m[k])
  {
    query := if f.isDeleted.Some? then set k | k in m && m[k].audit.isDeleted == f.isDeleted.value
             else set k | k in m && !m[k].audit.isDeleted;
    if f.ownerId.Some? {
      query := set k | k in query && m[k].ownerId == f.ownerId.value;
    }
    if f.status.Some? {
      query := set k | k in query && m[k].status == f.status.value;
    }
  }

  /** The search term, then the address filter; a blank text is not applied. */
  method ApplyTextFilters(m: map<Id, Property>, base: set<Id>, f: PropertyRules.PropertyFilter) returns (query: set<Id>)
    requires base <= m.Keys
    ensures forall k :: k in query <==> k in base && PropertyRules.PassesTextFilters(f, m[k])
  {
    query := base;
    if !Blank(f.searchTerm) {
      var term := f.searchTerm.value;
      query := set k | k in query && (Contains(m[k].title, term) || Contains(m[k].description, term) ||
                                      Contains(m[k].address, term));
    }
    if !Blank(f.address) {
      query := set k | k in query && Contains(m[k].address, f.address.value);
    }
  }

  /** The rent and area bounds, then the creation-date bounds, each inclusive. */
  method ApplyRangeFilters(m: map<Id, Property>, base: set<Id>, f: PropertyRules.PropertyFilter) returns (query: set<Id>)
    requires base <= m.Keys
    ensures forall k :: k in query <==> k in base && PropertyRules.PassesRangeFilters(f, m[k])
  {
    query := ApplySizeFilters(m, base, f);
    if f.createdFrom.Some? {
      query := set k | k in query && !Before(m[k].audit.createdAt, f.createdFrom.value);
    }
    if f.createdTo.Some? {
      query := set k | k in query && !Before(f.createdTo.value, m[k].audit.createdAt);
    }
  }

  method ApplySizeFilters(m: map<Id, Property>, base: set<Id>, f: PropertyRules.PropertyFilter) returns (query: set<Id>)
    requires base <= m.Keys
    ensures query <= base
    ensures forall k :: k in query <==> (k in base &&
      (f.minRent.Some? ==> m[k].monthlyPrice >= f.minRent.value) &&
      (f.maxRent.Some? ==> m[k].monthlyPrice <= f.maxRent.value) &&
      (f.minArea.Some? ==> m[k].areaSqm >= f.minArea.value) &&
      (f.maxArea.Some? ==> m[k].areaSqm <= f.maxArea.value))
  {
    query := base;
    if f.minRent.Some? {
      query := set k | k in query && m[k].monthlyPrice >= f.minRent.value;
    }
    if f.maxRent.Some? {
      query := set k | k in query && m[k].monthlyPrice <= f.maxRent.value;
    }
    if f.minArea.Some? {
      query := set k | k in query && m[k].areaSqm >= f.minArea.value;
    }
    if f.maxArea.Some? {
      query := set k | k in query && m[k].areaSqm <= f.maxArea.value;
    }
  }
}
