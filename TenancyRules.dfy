/** What each tenancy operation does to the database, as a function from the
    state before to its outcome: the guard that fails first decides the error,
    and a failure commits nothing. The methods of `TenancyService` are proved
    to compute exactly these outcomes. */
module TenancyRules {
  import opened Core
  import opened Entities
  import opened Store
  import opened Query

  /** The status table of a tenancy: the only moves are pending to active or
      cancelled, and active to expired or cancelled. */
  predicate IsValidStatusTransition(from: TenancyStatus, to: TenancyStatus)
  {
    (from.PendingConfirmation? && to.Active?) ||
    (from.PendingConfirmation? && to.Cancelled?) ||
    (from.Active? && to.Expired?) ||
    (from.Active? && to.Cancelled?)
  }

  /** Expired and cancelled are final, nothing moves back to pending, and
      every status that has a move has exactly two. */
  lemma TransitionTableShape(from: TenancyStatus, to: TenancyStatus)
    ensures from == Expired || from == TenancyStatus.Cancelled ==> !IsValidStatusTransition(from, to)
    ensures to == PendingConfirmation ==> !IsValidStatusTransition(from, to)
    ensures IsValidStatusTransition(from, to) ==> from != to
    ensures from == PendingConfirmation ==> (IsValidStatusTransition(from, to) <==> to == Active || to == TenancyStatus.Cancelled)
    ensures from == Active ==> (IsValidStatusTransition(from, to) <==> to == Expired || to == TenancyStatus.Cancelled)
  {
  }

  datatype CreateTenancyRequest = CreateTenancyRequest(
    propertyId: Id,
    tenantId: Id,
    startDate: DateTime,
    endDate: DateTime,
    contractUrl: Option<string>,
    electricUnitPrice: int,
    waterUnitPrice: int,
    electricOldIndex: int,
    waterOldIndex: int)

  /** The range annotations of the creation request. */
  predicate CreateRequestInRange(req: CreateTenancyRequest)
  {
    req.electricUnitPrice >= 0 && req.waterUnitPrice >= 0 &&
    req.electricOldIndex >= 0 && req.waterOldIndex >= 0
  }

  /** The record a successful creation inserts. */
  function NewTenancy(now: DateTime, ownerId: Id, req: CreateTenancyRequest): Tenancy
  {
    Tenancy(Inserted(now), req.propertyId, req.tenantId, ownerId, req.startDate, req.endDate,
      if req.contractUrl.Some? then req.contractUrl.value else "",
      PendingConfirmation, false,
      req.electricUnitPrice, req.waterUnitPrice, req.electricOldIndex, req.waterOldIndex)
  }

  /** The caller is a live account with the Owner role. */
  predicate IsOwner(st: State, ownerId: Id)
  {
    st.LiveAccount(ownerId) && st.accounts[ownerId].role == Owner
  }

  /** A live account with the User role, the only role that may rent. */
  predicate IsUser(st: State, accountId: Id)
  {
    st.LiveAccount(accountId) && st.accounts[accountId].role == User
  }

  /** The caller is an owner and owns the live property. */
  predicate OwnsLiveProperty(st: State, ownerId: Id, propertyId: Id)
  {
    IsOwner(st, ownerId) && st.LiveProperty(propertyId) && st.properties[propertyId].ownerId == ownerId
  }

  /** The caller owns the live property and it is not occupied. */
  predicate PropertyFree(st: State, ownerId: Id, propertyId: Id)
  {
    OwnsLiveProperty(st, ownerId, propertyId) && st.properties[propertyId].status != Occupied
  }

  function CreateTenancy(st: State, now: DateTime, ownerId: Id, req: CreateTenancyRequest): (o: Outcome<Id>)
    requires st.Valid() && CreateRequestInRange(req)
    ensures o.result.Err? ==> o.post == st
    ensures !st.LiveAccount(ownerId) ==> o.result == Err(NotFound)
    ensures st.LiveAccount(ownerId) && st.accounts[ownerId].role != Owner ==> o.result == Err(Forbidden)
    ensures IsOwner(st, ownerId) && !st.LiveProperty(req.propertyId) ==> o.result == Err(NotFound)
    ensures IsOwner(st, ownerId) && st.LiveProperty(req.propertyId) && st.properties[req.propertyId].ownerId != ownerId
      ==> o.result == Err(Forbidden)
    ensures OwnsLiveProperty(st, ownerId, req.propertyId) && st.properties[req.propertyId].status == Occupied
      ==> o.result == Err(Conflict)
    ensures PropertyFree(st, ownerId, req.propertyId) && !st.LiveAccount(req.tenantId) ==> o.result == Err(NotFound)
    ensures PropertyFree(st, ownerId, req.propertyId) && st.LiveAccount(req.tenantId) && st.accounts[req.tenantId].role != User
      ==> o.result == Err(BadRequest(TenantRole))
    ensures PropertyFree(st, ownerId, req.propertyId) && IsUser(st, req.tenantId) && st.HasActiveTenancy(req.propertyId)
      ==> o.result == Err(Conflict)
    ensures PropertyFree(st, ownerId, req.propertyId) && IsUser(st, req.tenantId) && !st.HasActiveTenancy(req.propertyId) &&
      !Before(req.startDate, req.endDate)
      ==> o.result == Err(BadRequest(DateOrder))
    ensures o.result.Ok? <==>
      st.LiveAccount(ownerId) && st.accounts[ownerId].role == Owner &&
      st.LiveProperty(req.propertyId) && st.properties[req.propertyId].ownerId == ownerId &&
      st.properties[req.propertyId].status == Available &&
      st.LiveAccount(req.tenantId) && st.accounts[req.tenantId].role == User &&
      !st.HasActiveTenancy(req.propertyId) && Before(req.startDate, req.endDate)
    ensures o.result.Ok? ==>
      var id := o.result.value;
      id == st.nextId && id !in st.tenancies && id in o.post.tenancies &&
      o.post == st.(tenancies := st.tenancies[id := o.post.tenancies[id]], nextId := id + 1) &&
      var t := o.post.tenancies[id];
      t.status == PendingConfirmation && !t.isTenantConfirmed && !t.audit.isDeleted &&
      t.ownerId == ownerId && t.propertyId == req.propertyId && t.tenantId == req.tenantId &&
      t.electricOldIndex == req.electricOldIndex && t.waterOldIndex == req.waterOldIndex &&
      t.electricUnitPrice == req.electricUnitPrice && t.waterUnitPrice == req.waterUnitPrice &&
      t.startDate == req.startDate && t.endDate == req.endDate && Before(t.startDate, t.endDate) &&
      t.contractUrl == (if req.contractUrl.Some? then req.contractUrl.value else "") &&
      t.audit == Inserted(now)
  {
    if !st.LiveAccount(ownerId) then Fail(st, NotFound)
    else if st.accounts[ownerId].role != Owner then Fail(st, Forbidden)
    else if !st.LiveProperty(req.propertyId) then Fail(st, NotFound)
    else if st.properties[req.propertyId].ownerId != ownerId then Fail(st, Forbidden)
    else if st.properties[req.propertyId].status == Occupied then Fail(st, Conflict)
    else if !st.LiveAccount(req.tenantId) then Fail(st, NotFound)
    else if st.accounts[req.tenantId].role != User then Fail(st, BadRequest(TenantRole))
    else if st.HasActiveTenancy(req.propertyId) then Fail(st, Conflict)
    else if !Before(req.startDate, req.endDate) then Fail(st, BadRequest(DateOrder))
    else
      assert st.properties[req.propertyId].status == Available;
      var id := st.nextId;
      Outcome(Ok(id), st.(tenancies := st.tenancies[id := NewTenancy(now, ownerId, req)], nextId := id + 1))
  }

  /** The optional fields of an update; `None` leaves the stored value. */
  datatype UpdateTenancyRequest = UpdateTenancyRequest(
    startDate: Option<DateTime>,
    endDate: Option<DateTime>,
    contractUrl: Option<string>,
    electricUnitPrice: Option<int>,
    waterUnitPrice: Option<int>)

  predicate UpdateRequestInRange(req: UpdateTenancyRequest)
  {
    (req.electricUnitPrice.Some? ==> req.electricUnitPrice.value >= 0) &&
    (req.waterUnitPrice.Some? ==> req.waterUnitPrice.value >= 0)
  }

  function UpdateTenancy(st: State, tenancyId: Id, userId: Id, req: UpdateTenancyRequest): (o: Outcome<Tenancy>)
    requires UpdateRequestInRange(req)
    ensures o.result.Err? ==> o.post == st
    ensures !st.LiveTenancy(tenancyId) ==> o.result == Err(NotFound)
    ensures st.LiveTenancy(tenancyId) && st.tenancies[tenancyId].ownerId != userId ==> o.result == Err(Forbidden)
    ensures st.LiveTenancy(tenancyId) && st.tenancies[tenancyId].ownerId == userId &&
      (st.tenancies[tenancyId].status.Active? || st.tenancies[tenancyId].status.Expired?)
      ==> o.result == Err(Conflict)
    ensures st.LiveTenancy(tenancyId) && st.tenancies[tenancyId].ownerId == userId &&
      !st.tenancies[tenancyId].status.Active? && !st.tenancies[tenancyId].status.Expired? &&
      req.startDate.Some? && req.endDate.Some? && !Before(req.startDate.value, req.endDate.value)
      ==> o.result == Err(BadRequest(DateOrder))
    ensures o.result.Ok? <==>
      st.LiveTenancy(tenancyId) && st.tenancies[tenancyId].ownerId == userId &&
      (st.tenancies[tenancyId].status.PendingConfirmation? || st.tenancies[tenancyId].status.Cancelled?) &&
      (req.startDate.Some? && req.endDate.Some? ==> Before(req.startDate.value, req.endDate.value))
    ensures o.result.Ok? ==>
      var was, t := st.tenancies[tenancyId], o.result.value;
      o.post == st.(tenancies := st.tenancies[tenancyId := t]) &&
      t.status == was.status && t.isTenantConfirmed == was.isTenantConfirmed &&
      t.electricOldIndex == was.electricOldIndex && t.waterOldIndex == was.waterOldIndex &&
      t.propertyId == was.propertyId && t.tenantId == was.tenantId && t.ownerId == was.ownerId &&
      t.audit == was.audit &&
      t.startDate == OrElse(req.startDate, was.startDate) && t.endDate == OrElse(req.endDate, was.endDate) &&
      t.contractUrl == (if Blank(req.contractUrl) then was.contractUrl else req.contractUrl.value) &&
      t.electricUnitPrice == OrElse(req.electricUnitPrice, was.electricUnitPrice) &&
      t.waterUnitPrice == OrElse(req.waterUnitPrice, was.waterUnitPrice)
  {
    if !st.LiveTenancy(tenancyId) then Fail(st, NotFound)
    else
      var was := st.tenancies[tenancyId];
      if was.ownerId != userId then Fail(st, Forbidden)
      else if was.status == Active || was.status == Expired then Fail(st, Conflict)
      else if req.startDate.Some? && req.endDate.Some? && !Before(req.startDate.value, req.endDate.value)
      then Fail(st, BadRequest(DateOrder))
      else
        var t := was.(
          startDate := OrElse(req.startDate, was.startDate),
          endDate := OrElse(req.endDate, was.endDate),
          contractUrl := if Blank(req.contractUrl) then was.contractUrl else req.contractUrl.value,
          electricUnitPrice := OrElse(req.electricUnitPrice, was.electricUnitPrice),
          waterUnitPrice := OrElse(req.waterUnitPrice, was.waterUnitPrice));
        Outcome(Ok(t), st.(tenancies := st.tenancies[tenancyId := t]))
  }

  /** The date-order check needs both dates in the request: an end date alone
      that falls before the stored start date is accepted. */
  lemma UpdateCanInvertDates(st: State, tenancyId: Id, userId: Id, end: DateTime)
    requires st.LiveTenancy(tenancyId) && st.tenancies[tenancyId].ownerId == userId
    requires st.tenancies[tenancyId].status == PendingConfirmation
    requires Before(end, st.tenancies[tenancyId].startDate)
    ensures var o := UpdateTenancy(st, tenancyId, userId, UpdateTenancyRequest(None, Some(end), None, None, None));
      o.result.Ok? && Before(o.result.value.endDate, o.result.value.startDate)
  {
  }

  /** The property table after a tenancy moves to `to`: occupied on
      activation, available when the tenancy ends. */
  function PropertiesAfterMove(properties: map<Id, Property>, propertyId: Id, to: TenancyStatus): map<Id, Property>
  {
    if to == Active then SetPropertyStatus(properties, propertyId, Occupied)
    else if to == Expired || to == TenancyStatus.Cancelled then SetPropertyStatus(properties, propertyId, Available)
    else properties
  }

  function UpdateTenancyStatus(st: State, tenancyId: Id, userId: Id, newStatus: TenancyStatus): (o: Outcome<Tenancy>)
    ensures o.result.Err? ==> o.post == st
    ensures !st.LiveTenancy(tenancyId) ==> o.result == Err(NotFound)
    ensures st.LiveTenancy(tenancyId) && st.tenancies[tenancyId].ownerId != userId ==> o.result == Err(Forbidden)
    ensures st.LiveTenancy(tenancyId) && st.tenancies[tenancyId].ownerId == userId &&
      !IsValidStatusTransition(st.tenancies[tenancyId].status, newStatus)
      ==> o.result == Err(BadRequest(Transition))
    ensures st.LiveTenancy(tenancyId) && st.tenancies[tenancyId].ownerId == userId &&
      IsValidStatusTransition(st.tenancies[tenancyId].status, newStatus) &&
      newStatus == Active && !st.tenancies[tenancyId].isTenantConfirmed
      ==> o.result == Err(BadRequest(NotConfirmed))
    ensures o.result.Ok? <==>
      st.LiveTenancy(tenancyId) && st.tenancies[tenancyId].ownerId == userId &&
      IsValidStatusTransition(st.tenancies[tenancyId].status, newStatus) &&
      (newStatus == Active ==> st.tenancies[tenancyId].isTenantConfirmed)
    ensures o.result.Ok? ==>
      var was := st.tenancies[tenancyId];
      o.result.value == was.(status := newStatus) &&
      o.post == st.(tenancies := st.tenancies[tenancyId := was.(status := newStatus)],
                    properties := o.post.properties) &&
      o.post.properties.Keys == st.properties.Keys &&
      (was.propertyId in st.properties ==>
        o.post.properties[was.propertyId] ==
          st.properties[was.propertyId].(status := if newStatus == Active then Occupied else Available)) &&
      forall p :: p in st.properties && p != was.propertyId ==> o.post.properties[p] == st.properties[p]
  {
    if !st.LiveTenancy(tenancyId) then Fail(st, NotFound)
    else
      var was := st.tenancies[tenancyId];
      if was.ownerId != userId then Fail(st, Forbidden)
      else if !IsValidStatusTransition(was.status, newStatus) then Fail(st, BadRequest(Transition))
      else if newStatus == Active && !was.isTenantConfirmed then Fail(st, BadRequest(NotConfirmed))
      else
        var t := was.(status := newStatus);
        Outcome(Ok(t), st.(tenancies := st.tenancies[tenancyId := t],
                           properties := PropertiesAfterMove(st.properties, was.propertyId, newStatus)))
  }

  function TenantConfirmTenancy(st: State, tenancyId: Id, tenantId: Id): (o: Outcome<Tenancy>)
    ensures o.result.Err? ==> o.post == st
    ensures !st.LiveTenancy(tenancyId) ==> o.result == Err(NotFound)
    ensures st.LiveTenancy(tenancyId) && st.tenancies[tenancyId].tenantId != tenantId ==> o.result == Err(Forbidden)
    ensures st.LiveTenancy(tenancyId) && st.tenancies[tenancyId].tenantId == tenantId &&
      st.tenancies[tenancyId].status != PendingConfirmation
      ==> o.result == Err(BadRequest(NotPending))
    ensures st.LiveTenancy(tenancyId) && st.tenancies[tenancyId].tenantId == tenantId &&
      st.tenancies[tenancyId].status == PendingConfirmation && st.tenancies[tenancyId].isTenantConfirmed
      ==> o.result == Err(Conflict)
    ensures o.result.Ok? <==>
      st.LiveTenancy(tenancyId) && st.tenancies[tenancyId].tenantId == tenantId &&
      st.tenancies[tenancyId].status == PendingConfirmation && !st.tenancies[tenancyId].isTenantConfirmed
    ensures o.result.Ok? ==>
      var was := st.tenancies[tenancyId];
      var t := was.(isTenantConfirmed := true, status := Active);
      o.result.value == t &&
      o.post == st.(tenancies := st.tenancies[tenancyId := t],
                    properties := SetPropertyStatus(st.properties, was.propertyId, Occupied))
  {
    if !st.LiveTenancy(tenancyId) then Fail(st, NotFound)
    else
      var was := st.tenancies[tenancyId];
      if was.tenantId != tenantId then Fail(st, Forbidden)
      else if was.status != PendingConfirmation then Fail(st, BadRequest(NotPending))
      else if was.isTenantConfirmed then Fail(st, Conflict)
      else
        var t := was.(isTenantConfirmed := true, status := Active);
        Outcome(Ok(t), st.(tenancies := st.tenancies[tenancyId := t],
                           properties := SetPropertyStatus(st.properties, was.propertyId, Occupied)))
  }

  /** Confirmation is one-shot: once it succeeded, confirming again is refused
      because the tenancy is no longer pending. */
  lemma ConfirmTwiceFails(st: State, tenancyId: Id, tenantId: Id)
    requires TenantConfirmTenancy(st, tenancyId, tenantId).result.Ok?
    ensures TenantConfirmTenancy(TenantConfirmTenancy(st, tenancyId, tenantId).post, tenancyId, tenantId).result
      == Err(BadRequest(NotPending))
  {
  }

  function CancelTenancy(st: State, tenancyId: Id, userId: Id): (o: Outcome<bool>)
    ensures o.result.Err? ==> o.post == st
    ensures !st.LiveTenancy(tenancyId) ==> o.result == Err(NotFound)
    ensures st.LiveTenancy(tenancyId) && st.tenancies[tenancyId].ownerId != userId &&
      st.tenancies[tenancyId].tenantId != userId
      ==> o.result == Err(Forbidden)
    ensures st.LiveTenancy(tenancyId) &&
      (st.tenancies[tenancyId].ownerId == userId || st.tenancies[tenancyId].tenantId == userId) &&
      (st.tenancies[tenancyId].status == Expired || st.tenancies[tenancyId].status == TenancyStatus.Cancelled)
      ==> o.result == Err(Conflict)
    ensures o.result.Ok? <==>
      st.LiveTenancy(tenancyId) &&
      (st.tenancies[tenancyId].ownerId == userId || st.tenancies[tenancyId].tenantId == userId) &&
      (st.tenancies[tenancyId].status.PendingConfirmation? || st.tenancies[tenancyId].status.Active?)
    ensures o.result.Ok? ==>
      var was := st.tenancies[tenancyId];
      o.result.value &&
      o.post == st.(tenancies := st.tenancies[tenancyId := was.(status := TenancyStatus.Cancelled)],
                    properties := SetPropertyStatus(st.properties, was.propertyId, Available))
  {
    if !st.LiveTenancy(tenancyId) then Fail(st, NotFound)
    else
      var was := st.tenancies[tenancyId];
      if was.ownerId != userId && was.tenantId != userId then Fail(st, Forbidden)
      else if was.status == Expired || was.status == TenancyStatus.Cancelled then Fail(st, Conflict)
      else
        Outcome(Ok(true), st.(tenancies := st.tenancies[tenancyId := was.(status := TenancyStatus.Cancelled)],
                              properties := SetPropertyStatus(st.properties, was.propertyId, Available)))
  }

  function DeleteTenancy(st: State, now: DateTime, tenancyId: Id, ownerId: Id): (o: Outcome<bool>)
    ensures o.result.Err? ==> o.post == st
    ensures !st.LiveTenancy(tenancyId) ==> o.result == Err(NotFound)
    ensures st.LiveTenancy(tenancyId) && st.tenancies[tenancyId].ownerId != ownerId ==> o.result == Err(Forbidden)
    ensures st.LiveTenancy(tenancyId) && st.tenancies[tenancyId].ownerId == ownerId &&
      st.tenancies[tenancyId].status == Active
      ==> o.result == Err(Conflict)
    ensures o.result.Ok? <==>
      st.LiveTenancy(tenancyId) && st.tenancies[tenancyId].ownerId == ownerId &&
      st.tenancies[tenancyId].status != Active
    ensures o.result.Ok? ==>
      var was := st.tenancies[tenancyId];
      o.result.value &&
      o.post == st.(tenancies := st.tenancies[tenancyId := was.(audit := SoftRemoved(was.audit, now, ownerId))]) &&
      o.post.tenancies[tenancyId].audit.isDeleted
  {
    if !st.LiveTenancy(tenancyId) then Fail(st, NotFound)
    else
      var was := st.tenancies[tenancyId];
      if was.ownerId != ownerId then Fail(st, Forbidden)
      else if was.status == Active then Fail(st, Conflict)
      else
        Outcome(Ok(true), st.(tenancies := st.tenancies[tenancyId := was.(audit := SoftRemoved(was.audit, now, ownerId))]))
  }

  /** A tenancy the expiry sweep picks up at `now`. */
  predicate IsDue(t: Tenancy, now: DateTime)
  {
    t.status == Active && Before(t.endDate, now) && !t.audit.isDeleted
  }

  function DueIds(tenancies: map<Id, Tenancy>, now: DateTime): (S: set<Id>)
    ensures S <= tenancies.Keys
    ensures forall k :: k in S <==> k in tenancies && IsDue(tenancies[k], now)
  {
    set k | k in tenancies && IsDue(tenancies[k], now)
  }

  /** The properties of the tenancies `S`. */
  function PropertiesOf(tenancies: map<Id, Tenancy>, S: set<Id>): set<Id>
    requires S <= tenancies.Keys
  {
    set k | k in S :: tenancies[k].propertyId
  }

  function ExpireAll(tenancies: map<Id, Tenancy>, S: set<Id>): (r: map<Id, Tenancy>)
    ensures r.Keys == tenancies.Keys
    ensures forall k :: k in tenancies ==> r[k] == if k in S then tenancies[k].(status := Expired) else tenancies[k]
  {
    map k | k in tenancies :: if k in S then tenancies[k].(status := Expired) else tenancies[k]
  }

  function FreeAll(properties: map<Id, Property>, P: set<Id>): (r: map<Id, Property>)
    ensures r.Keys == properties.Keys
    ensures forall p :: p in properties ==> r[p] == if p in P then properties[p].(status := Available) else properties[p]
  {
    map p | p in properties :: if p in P then properties[p].(status := Available) else properties[p]
  }

  /** UpdateExpiredTenanciesAsync at `now`: every due tenancy becomes expired
      and its property available; the count of them is returned. */
  function UpdateExpiredTenancies(st: State, now: DateTime): (o: Outcome<int>)
    ensures o.result.Ok? && o.result.value == |DueIds(st.tenancies, now)|
    ensures o.result.value == 0 ==> o.post == st
    ensures o.post == st.(tenancies := o.post.tenancies, properties := o.post.properties)
    ensures o.post.tenancies.Keys == st.tenancies.Keys && o.post.properties.Keys == st.properties.Keys
    ensures forall k :: k in st.tenancies ==>
      o.post.tenancies[k] == if IsDue(st.tenancies[k], now) then st.tenancies[k].(status := Expired) else st.tenancies[k]
    ensures forall k :: k in st.tenancies && IsDue(st.tenancies[k], now) && st.tenancies[k].propertyId in st.properties ==>
      o.post.properties[st.tenancies[k].propertyId].status == Available
    ensures forall p :: p in st.properties && o.post.properties[p] != st.properties[p] ==>
      o.post.properties[p] == st.properties[p].(status := Available)
    ensures forall p :: p in st.properties && p !in PropertiesOf(st.tenancies, DueIds(st.tenancies, now)) ==>
      o.post.properties[p] == st.properties[p]
  {
    var S := DueIds(st.tenancies, now);
    if S == {} then Outcome(Ok(0), st)
    else
      Outcome(Ok(|S|), st.(tenancies := ExpireAll(st.tenancies, S),
                           properties := FreeAll(st.properties, PropertiesOf(st.tenancies, S))))
  }

  /** The sweep is idempotent: run again at the same instant it finds nothing. */
  lemma {:induction false} UpdateExpiredIdempotent(st: State, now: DateTime)
    ensures var once := UpdateExpiredTenancies(st, now).post;
      UpdateExpiredTenancies(once, now) == Outcome(Ok(0), once)
  {
    var once := UpdateExpiredTenancies(st, now).post;
    forall k | k in once.tenancies
      ensures !IsDue(once.tenancies[k], now)
    {
    }
    assert DueIds(once.tenancies, now) == {};
  }

  /** The query filters of GetTenanciesAsync; `None` means not filtered. */
  datatype TenancyFilter = TenancyFilter(
    propertyId: Option<Id>,
    tenantId: Option<Id>,
    ownerId: Option<Id>,
    status: Option<TenancyStatus>,
    isTenantConfirmed: Option<bool>,
    isDeleted: Option<bool>,
    startDateFrom: Option<DateTime>,
    startDateTo: Option<DateTime>)

  predicate PassesFilter(f: TenancyFilter, t: Tenancy)
  {
    PassesKeyFilters(f, t) &&
    (f.status.Some? ==> t.status == f.status.value) &&
    (f.isTenantConfirmed.Some? ==> t.isTenantConfirmed == f.isTenantConfirmed.value) &&
    (f.startDateFrom.Some? ==> !Before(t.startDate, f.startDateFrom.value)) &&
    (f.startDateTo.Some? ==> !Before(f.startDateTo.value, t.startDate))
  }

  /** The deletion flag (non-deleted unless asked) and the three id filters. */
  predicate PassesKeyFilters(f: TenancyFilter, t: Tenancy)
  {
    (if f.isDeleted.Some? then t.audit.isDeleted == f.isDeleted.value else !t.audit.isDeleted) &&
    (f.propertyId.Some? ==> t.propertyId == f.propertyId.value) &&
    (f.tenantId.Some? ==> t.tenantId == f.tenantId.value) &&
    (f.ownerId.Some? ==> t.ownerId == f.ownerId.value)
  }

  /** The caller's view: an account that is not an admin sees only the
      tenancies it owns or rents; an id with no account sees everything. */
  predicate VisibleTo(st: State, userId: Id, t: Tenancy)
  {
    userId in st.accounts && st.accounts[userId].role != Admin ==> t.ownerId == userId || t.tenantId == userId
  }

  function MatchingTenancies(st: State, userId: Id, f: TenancyFilter): (S: set<Id>)
    ensures S <= st.tenancies.Keys
    ensures forall k :: k in S <==> k in st.tenancies && PassesFilter(f, st.tenancies[k]) && VisibleTo(st, userId, st.tenancies[k])
  {
    set k | k in st.tenancies && PassesFilter(f, st.tenancies[k]) && VisibleTo(st, userId, st.tenancies[k])
  }

  function TenancyCreatedAt(t: Tenancy): DateTime { t.audit.createdAt }

  ghost function GetTenancies(st: State, userId: Id, pageNumber: int, pageSize: int, f: TenancyFilter): (r: Result<Pagination<Tenancy>>)
    ensures r.Err? <==> PageRejected(pageNumber, pageSize)
    ensures r.Err? ==> r.error == Failure(NegativePaging)
    ensures r.Ok? ==> r.value.totalCount == |MatchingTenancies(st, userId, f)|
    ensures r.Ok? ==> |r.value.items| <= r.value.totalCount && |r.value.items| <= pageSize
    ensures r.Ok? ==> forall i :: 0 <= i < |r.value.items| ==> PassesFilter(f, r.value.items[i]) && VisibleTo(st, userId, r.value.items[i])
    ensures r.Ok? ==> forall i, j :: 0 <= i < j < |r.value.items| ==> !Before(TenancyCreatedAt(r.value.items[i]), TenancyCreatedAt(r.value.items[j]))
    ensures r.Ok? ==> 1 <= pageNumber && 1 <= pageSize && (pageNumber - 1) * pageSize <= Int32Max ==>
      (pageNumber - 1) * pageSize >= 0 &&
      r.value.items == Rows(st.tenancies,
        Slice(Listing(st.tenancies, MatchingTenancies(st, userId, f), TenancyCreatedAt), (pageNumber - 1) * pageSize, pageSize))
  {
    var S := MatchingTenancies(st, userId, f);
    if PageRejected(pageNumber, pageSize) then Err(Failure(NegativePaging))
    else
      Ok(Pagination(PageOf(st.tenancies, S, TenancyCreatedAt, (t: Tenancy) => PassesFilter(f, t) && VisibleTo(st, userId, t),
        pageNumber, pageSize), |S|, pageNumber, pageSize))
  }

  /** An id without an account gets the unrestricted listing, as an admin does. */
  lemma UnknownCallerSeesAll(st: State, userId: Id, adminId: Id, f: TenancyFilter)
    requires userId !in st.accounts
    requires adminId in st.accounts && st.accounts[adminId].role == Admin
    ensures MatchingTenancies(st, userId, f) == MatchingTenancies(st, adminId, f)
  {
  }
}
