/** What each property operation does to the database, as a function from
    the state before to its outcome. A failed guard commits nothing. The
    methods of `PropertyService` are proved to compute exactly these outcomes. */
module PropertyRules {
  import opened Core
  import opened Entities
  import opened Store
  import opened Query

  /** The listing of a new property. `monthlyPrice` is the one rent field. */
  datatype CreatePropertyRequest = CreatePropertyRequest(
    title: string,
    description: string,
    address: string,
    monthlyPrice: int,
    areaSqm: int,
    imageUrl: string)

  /** The range annotations of the creation request: the rent is not
      negative and the area is at least one square metre. */
  predicate CreateRequestInRange(req: CreatePropertyRequest)
  {
    req.monthlyPrice >= 0 && req.areaSqm >= 1
  }

  /** The record a successful creation inserts: it starts available. */
  function NewProperty(now: DateTime, ownerId: Id, req: CreatePropertyRequest): Property
  {
    Property(Inserted(now), ownerId, req.title, req.description, req.address,
      req.monthlyPrice, req.areaSqm, Available, req.imageUrl)
  }

  function CreateProperty(st: State, now: DateTime, ownerId: Id, req: CreatePropertyRequest): (o: Outcome<Id>)
    requires st.Valid() && CreateRequestInRange(req)
    ensures o.result.Err? ==> o.post == st
    ensures !st.LiveAccount(ownerId) ==> o.result == Err(NotFound)
    ensures st.LiveAccount(ownerId) && st.accounts[ownerId].role != Owner ==> o.result == Err(Forbidden)
    ensures st.LiveAccount(ownerId) && !st.accounts[ownerId].isOwnerApproved ==> o.result == Err(Forbidden)
    ensures o.result.Ok? <==>
      st.LiveAccount(ownerId) && st.accounts[ownerId].role == Owner && st.accounts[ownerId].isOwnerApproved
    ensures o.result.Ok? ==>
      var id := o.result.value;
      id == st.nextId && id !in st.properties && id in o.post.properties &&
      o.post == st.(properties := st.properties[id := o.post.properties[id]], nextId := id + 1) &&
      var p := o.post.properties[id];
      p.status == Available && p.ownerId == ownerId && !p.audit.isDeleted && p.audit.createdAt == now &&
      p.title == req.title && p.description == req.description && p.address == req.address &&
      p.monthlyPrice == req.monthlyPrice && p.areaSqm == req.areaSqm && p.imageUrl == req.imageUrl &&
      p.monthlyPrice >= 0 && p.areaSqm >= 1
  {
    if !st.LiveAccount(ownerId) then Fail(st, NotFound)
    else if st.accounts[ownerId].role != Owner then Fail(st, Forbidden)
    else if !st.accounts[ownerId].isOwnerApproved then Fail(st, Forbidden)
    else
      var id := st.nextId;
      Outcome(Ok(id), st.(properties := st.properties[id := NewProperty(now, ownerId, req)], nextId := id + 1))
  }

  /** The optional fields of an update; `None` leaves the stored value. */
  datatype UpdatePropertyRequest = UpdatePropertyRequest(
    title: Option<string>,
    description: Option<string>,
    address: Option<string>,
    monthlyPrice: Option<int>,
    areaSqm: Option<int>,
    imageUrl: Option<string>)

  predicate UpdateRequestInRange(req: UpdatePropertyRequest)
  {
    (req.monthlyPrice.Some? ==> req.monthlyPrice.value >= 0) &&
    (req.areaSqm.Some? ==> req.areaSqm.value >= 1)
  }

  /** A title or an address replaces the stored one only when it is not
      blank; the other fields whenever they are supplied. */
  function Edited(was: Property, req: UpdatePropertyRequest): Property
  {
    was.(
      title := if Blank(req.title) then was.title else req.title.value,
      description := OrElse(req.description, was.description),
      address := if Blank(req.address) then was.address else req.address.value,
      monthlyPrice := OrElse(req.monthlyPrice, was.monthlyPrice),
      areaSqm := OrElse(req.areaSqm, was.areaSqm),
      imageUrl := OrElse(req.imageUrl, was.imageUrl))
  }

  function UpdateProperty(st: State, propertyId: Id, ownerId: Id, req: UpdatePropertyRequest): (o: Outcome<Property>)
    requires UpdateRequestInRange(req)
    ensures o.result.Err? ==> o.post == st
    ensures !st.LiveProperty(propertyId) ==> o.result == Err(NotFound)
    ensures st.LiveProperty(propertyId) && st.properties[propertyId].ownerId != ownerId ==> o.result == Err(Forbidden)
    ensures o.result.Ok? <==> st.LiveProperty(propertyId) && st.properties[propertyId].ownerId == ownerId
    ensures o.result.Ok? ==>
      var was, p := st.properties[propertyId], o.result.value;
      o.post == st.(properties := st.properties[propertyId := p]) &&
      p.status == was.status && p.ownerId == was.ownerId && p.audit == was.audit &&
      p.title == (if Blank(req.title) then was.title else req.title.value) &&
      p.description == OrElse(req.description, was.description) &&
      p.address == (if Blank(req.address) then was.address else req.address.value) &&
      p.monthlyPrice == OrElse(req.monthlyPrice, was.monthlyPrice) &&
      p.areaSqm == OrElse(req.areaSqm, was.areaSqm) &&
      p.imageUrl == OrElse(req.imageUrl, was.imageUrl) &&
      (was.monthlyPrice >= 0 ==> p.monthlyPrice >= 0) && (was.areaSqm >= 1 ==> p.areaSqm >= 1)
  {
    if !st.LiveProperty(propertyId) then Fail(st, NotFound)
    else if st.properties[propertyId].ownerId != ownerId then Fail(st, Forbidden)
    else
      var p := Edited(st.properties[propertyId], req);
      Outcome(Ok(p), st.(properties := st.properties[propertyId := p]))
  }

  /** Sending the same update twice leaves the database as sending it once. */
  lemma UpdateIdempotent(st: State, propertyId: Id, ownerId: Id, req: UpdatePropertyRequest)
    requires UpdateRequestInRange(req)
    requires UpdateProperty(st, propertyId, ownerId, req).result.Ok?
    ensures var once := UpdateProperty(st, propertyId, ownerId, req);
      UpdateProperty(once.post, propertyId, ownerId, req) == once
  {
    var once := UpdateProperty(st, propertyId, ownerId, req);
    var p := once.result.value;
    assert Edited(p, req) == p;
    assert once.post.properties[propertyId := p] == once.post.properties;
  }

  /** Sets any status: neither the current status nor the tenancies are consulted. */
  function UpdatePropertyStatus(st: State, propertyId: Id, ownerId: Id, status: PropertyStatus): (o: Outcome<bool>)
    ensures o.result.Err? ==> o.post == st
    ensures !st.LiveProperty(propertyId) ==> o.result == Err(NotFound)
    ensures st.LiveProperty(propertyId) && st.properties[propertyId].ownerId != ownerId ==> o.result == Err(Forbidden)
    ensures o.result.Ok? <==> st.LiveProperty(propertyId) && st.properties[propertyId].ownerId == ownerId
    ensures o.result.Ok? ==>
      o.result.value && o.post == st.(properties := SetPropertyStatus(st.properties, propertyId, status)) &&
      o.post.properties[propertyId].status == status
  {
    if !st.LiveProperty(propertyId) then Fail(st, NotFound)
    else if st.properties[propertyId].ownerId != ownerId then Fail(st, Forbidden)
    else Outcome(Ok(true), st.(properties := SetPropertyStatus(st.properties, propertyId, status)))
  }

  /** The status setter bypasses the guard of `MarkAvailable`: the owner of a
      property with an active tenancy can still set it available. */
  lemma StatusSetterBypassesTenancyGuard(st: State, propertyId: Id, ownerId: Id)
    requires st.LiveProperty(propertyId) && st.properties[propertyId].ownerId == ownerId
    requires st.HasActiveTenancy(propertyId)
    ensures MarkAvailable(st, propertyId, ownerId).result == Err(Conflict)
    ensures var o := UpdatePropertyStatus(st, propertyId, ownerId, Available);
      o.result.Ok? && o.post.properties[propertyId].status == Available && o.post.HasActiveTenancy(propertyId)
  {
    var o := UpdatePropertyStatus(st, propertyId, ownerId, Available);
    var k :| k in st.tenancies && st.tenancies[k].propertyId == propertyId &&
      st.tenancies[k].status == Active && !st.tenancies[k].audit.isDeleted;
    assert o.post.tenancies == st.tenancies;
  }

  function GetPropertyById(st: State, propertyId: Id): (r: Result<Property>)
    ensures r.Ok? <==> st.LiveProperty(propertyId)
    ensures r.Ok? ==> r.value == st.properties[propertyId]
    ensures r.Err? ==> r.error == NotFound
  {
    if !st.LiveProperty(propertyId) then Err(NotFound) else Ok(st.properties[propertyId])
  }

  /** The active-tenancy check applies only to a property marked occupied. */
  function DeleteProperty(st: State, now: DateTime, propertyId: Id, ownerId: Id): (o: Outcome<bool>)
    ensures o.result.Err? ==> o.post == st
    ensures !st.LiveProperty(propertyId) ==> o.result == Err(NotFound)
    ensures st.LiveProperty(propertyId) && st.properties[propertyId].ownerId != ownerId ==> o.result == Err(Forbidden)
    ensures st.LiveProperty(propertyId) && st.properties[propertyId].ownerId == ownerId &&
      st.properties[propertyId].status == Occupied && st.HasActiveTenancy(propertyId)
      ==> o.result == Err(Conflict)
    ensures o.result.Ok? <==>
      st.LiveProperty(propertyId) && st.properties[propertyId].ownerId == ownerId &&
      (st.properties[propertyId].status == Occupied ==> !st.HasActiveTenancy(propertyId))
    ensures o.result.Ok? ==>
      var was := st.properties[propertyId];
      o.result.value &&
      o.post == st.(properties := st.properties[propertyId := was.(audit := SoftRemoved(was.audit, now, ownerId))]) &&
      !o.post.LiveProperty(propertyId)
  {
    if !st.LiveProperty(propertyId) then Fail(st, NotFound)
    else
      var was := st.properties[propertyId];
      if was.ownerId != ownerId then Fail(st, Forbidden)
      else if was.status == Occupied && st.HasActiveTenancy(propertyId) then Fail(st, Conflict)
      else Outcome(Ok(true), st.(properties := st.properties[propertyId := was.(audit := SoftRemoved(was.audit, now, ownerId))]))
  }

  /** No ownership check: whoever calls it can occupy any live property. */
  function MarkOccupied(st: State, propertyId: Id): (o: Outcome<bool>)
    ensures o.result.Err? ==> o.post == st
    ensures !st.LiveProperty(propertyId) ==> o.result == Err(NotFound)
    ensures st.LiveProperty(propertyId) && st.properties[propertyId].status == Occupied ==> o.result == Err(Conflict)
    ensures o.result.Ok? <==> st.LiveProperty(propertyId) && st.properties[propertyId].status != Occupied
    ensures o.result.Ok? ==>
      o.result.value && o.post == st.(properties := SetPropertyStatus(st.properties, propertyId, Occupied))
  {
    if !st.LiveProperty(propertyId) then Fail(st, NotFound)
    else if st.properties[propertyId].status == Occupied then Fail(st, Conflict)
    else Outcome(Ok(true), st.(properties := SetPropertyStatus(st.properties, propertyId, Occupied)))
  }

  /** Marking occupied is one-shot: a second call is refused. */
  lemma MarkOccupiedTwiceFails(st: State, propertyId: Id)
    requires MarkOccupied(st, propertyId).result.Ok?
    ensures MarkOccupied(MarkOccupied(st, propertyId).post, propertyId).result == Err(Conflict)
  {
    var post := MarkOccupied(st, propertyId).post;
    assert post.properties[propertyId].status == Occupied;
  }

  function MarkAvailable(st: State, propertyId: Id, ownerId: Id): (o: Outcome<bool>)
    ensures o.result.Err? ==> o.post == st
    ensures !st.LiveProperty(propertyId) ==> o.result == Err(NotFound)
    ensures st.LiveProperty(propertyId) && st.properties[propertyId].ownerId != ownerId ==> o.result == Err(Forbidden)
    ensures st.LiveProperty(propertyId) && st.properties[propertyId].ownerId == ownerId && st.HasActiveTenancy(propertyId)
      ==> o.result == Err(Conflict)
    ensures o.result.Ok? <==>
      st.LiveProperty(propertyId) && st.properties[propertyId].ownerId == ownerId && !st.HasActiveTenancy(propertyId)
    ensures o.result.Ok? ==>
      o.result.value && o.post == st.(properties := SetPropertyStatus(st.properties, propertyId, Available))
  {
    if !st.LiveProperty(propertyId) then Fail(st, NotFound)
    else if st.properties[propertyId].ownerId != ownerId then Fail(st, Forbidden)
    else if st.HasActiveTenancy(propertyId) then Fail(st, Conflict)
    else Outcome(Ok(true), st.(properties := SetPropertyStatus(st.properties, propertyId, Available)))
  }

  /** Unlike `MarkOccupied`, marking available again succeeds and changes nothing. */
  lemma MarkAvailableIdempotent(st: State, propertyId: Id, ownerId: Id)
    requires MarkAvailable(st, propertyId, ownerId).result.Ok?
    ensures var once := MarkAvailable(st, propertyId, ownerId);
      MarkAvailable(once.post, propertyId, ownerId) == once
  {
    var once := MarkAvailable(st, propertyId, ownerId);
    assert once.post.tenancies == st.tenancies;
    var p := once.post.properties[propertyId];
    assert once.post.properties[propertyId := p.(status := Available)] == once.post.properties;
  }

  /** The query filters of GetPropertiesAsync; `None` (or a blank text) means
      not filtered. */
  datatype PropertyFilter = PropertyFilter(
    searchTerm: Option<string>,
    ownerId: Option<Id>,
    status: Option<PropertyStatus>,
    minRent: Option<int>,
    maxRent: Option<int>,
    minArea: Option<int>,
    maxArea: Option<int>,
    address: Option<string>,
    isDeleted: Option<bool>,
    createdFrom: Option<DateTime>,
    createdTo: Option<DateTime>)

  const NoFilter := PropertyFilter(None, None, None, None, None, None, None, None, None, None, None)

  predicate PassesFilter(f: PropertyFilter, p: Property)
  {
    PassesKeyFilters(f, p) && PassesTextFilters(f, p) && PassesRangeFilters(f, p)
  }

  /** The deletion flag (non-deleted unless asked), the owner and the status. */
  predicate PassesKeyFilters(f: PropertyFilter, p: Property)
  {
    (if f.isDeleted.Some? then p.audit.isDeleted == f.isDeleted.value else !p.audit.isDeleted) &&
    (f.ownerId.Some? ==> p.ownerId == f.ownerId.value) &&
    (f.status.Some? ==> p.status == f.status.value)
  }

  /** The search term must occur in the title, the description or the
      address; the address filter in the address. */
  predicate PassesTextFilters(f: PropertyFilter, p: Property)
  {
    (!Blank(f.searchTerm) ==>
      Contains(p.title, f.searchTerm.value) || Contains(p.description, f.searchTerm.value) ||
      Contains(p.address, f.searchTerm.value)) &&
    (!Blank(f.address) ==> Contains(p.address, f.address.value))
  }

  /** Inclusive bounds on the rent, the area and the creation date. */
  predicate PassesRangeFilters(f: PropertyFilter, p: Property)
  {
    (f.minRent.Some? ==> p.monthlyPrice >= f.minRent.value) &&
    (f.maxRent.Some? ==> p.monthlyPrice <= f.maxRent.value) &&
    (f.minArea.Some? ==> p.areaSqm >= f.minArea.value) &&
    (f.maxArea.Some? ==> p.areaSqm <= f.maxArea.value) &&
    (f.createdFrom.Some? ==> !Before(p.audit.createdAt, f.createdFrom.value)) &&
    (f.createdTo.Some? ==> !Before(f.createdTo.value, p.audit.createdAt))
  }

  function MatchingProperties(properties: map<Id, Property>, f: PropertyFilter): (S: set<Id>)
    ensures S <= properties.Keys
    ensures forall k :: k in S <==> k in properties && PassesFilter(f, properties[k])
  {
    set k | k in properties && PassesFilter(f, properties[k])
  }

  /** With no filter supplied, the query returns exactly the live properties. */
  lemma DefaultListsLiveProperties(st: State)
    ensures forall k :: k in MatchingProperties(st.properties, NoFilter) <==> st.LiveProperty(k)
  {
  }

  /** Supplying filters only narrows the default result of the same deletion flag. */
  lemma FiltersOnlyNarrow(properties: map<Id, Property>, f: PropertyFilter)
    ensures MatchingProperties(properties, f) <= MatchingProperties(properties, NoFilter.(isDeleted := f.isDeleted))
  {
  }

  function PropertyCreatedAt(p: Property): DateTime { p.audit.createdAt }

  /** One page of the matching properties, newest first, and how many matched. */
  ghost function GetProperties(st: State, pageNumber: int, pageSize: int, f: PropertyFilter): (r: Result<Pagination<Property>>)
    ensures r.Err? <==> PageRejected(pageNumber, pageSize)
    ensures r.Err? ==> r.error == Failure(NegativePaging)
    ensures r.Ok? ==> r.value.totalCount == |MatchingProperties(st.properties, f)|
    ensures r.Ok? ==> |r.value.items| <= r.value.totalCount && |r.value.items| <= pageSize
    ensures r.Ok? ==> forall i :: 0 <= i < |r.value.items| ==> PassesFilter(f, r.value.items[i])
    ensures r.Ok? ==> forall i, j :: 0 <= i < j < |r.value.items| ==> !Before(PropertyCreatedAt(r.value.items[i]), PropertyCreatedAt(r.value.items[j]))
    ensures r.Ok? ==> 1 <= pageNumber && 1 <= pageSize && (pageNumber - 1) * pageSize <= Int32Max ==>
      (pageNumber - 1) * pageSize >= 0 &&
      r.value.items == Rows(st.properties,
        Slice(Listing(st.properties, MatchingProperties(st.properties, f), PropertyCreatedAt), (pageNumber - 1) * pageSize, pageSize))
  {
    var S := MatchingProperties(st.properties, f);
    if PageRejected(pageNumber, pageSize) then Err(Failure(NegativePaging))
    else
      Ok(Pagination(PageOf(st.properties, S, PropertyCreatedAt, p => PassesFilter(f, p), pageNumber, pageSize),
        |S|, pageNumber, pageSize))
  }
}
