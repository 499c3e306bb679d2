/** What each utility-reading operation does to the database. Readings of one
    property and tenancy form a chain: a new reading starts from where the
    latest one ended, or from the tenancy's baseline when there is none. */
module ReadingRules {
  import opened Core
  import opened Entities
  import opened Store
  import opened Query

  /** The response of the reading operations: the record with the units
      consumed of each utility. */
  datatype ReadingView = ReadingView(id: Id, reading: UtilityReading, electricUsage: int, waterUsage: int)

  function View(id: Id, r: UtilityReading): (v: ReadingView)
    ensures v.id == id && v.reading == r
    ensures r.electricOldIndex + v.electricUsage == r.electricNewIndex
    ensures r.waterOldIndex + v.waterUsage == r.waterNewIndex
  {
    ReadingView(id, r, r.electricNewIndex - r.electricOldIndex, r.waterNewIndex - r.waterOldIndex)
  }

  /** Neither meter ran backwards. */
  predicate Forward(r: UtilityReading)
  {
    r.electricOldIndex <= r.electricNewIndex && r.waterOldIndex <= r.waterNewIndex
  }

  /** The usage shown for a reading that did not run backwards is never negative. */
  lemma UsageNonNegative(id: Id, r: UtilityReading)
    requires Forward(r)
    ensures View(id, r).electricUsage >= 0 && View(id, r).waterUsage >= 0
  {
  }

  function ReadingDate(r: UtilityReading): DateTime { r.readingDate }

  /** The caller is the owner or the tenant of the tenancy. */
  predicate IsParty(t: Tenancy, userId: Id)
  {
    t.ownerId == userId || t.tenantId == userId
  }

  /** No charged reading loses its flag, and none disappears. */
  predicate ChargesKept(before: map<Id, UtilityReading>, after: map<Id, UtilityReading>)
  {
    forall k :: k in before && before[k].isCharged ==> k in after && after[k].isCharged
  }

  datatype CreateReadingRequest = CreateReadingRequest(
    propertyId: Id,
    tenancyId: Id,
    readingDate: DateTime,
    electricNewIndex: int,
    waterNewIndex: int)

  /** The range annotations of the request: new indices are not negative. */
  predicate CreateRequestInRange(req: CreateReadingRequest)
  {
    req.electricNewIndex >= 0 && req.waterNewIndex >= 0
  }

  /** The non-deleted readings of one property and tenancy. */
  function ChainOf(readings: map<Id, UtilityReading>, propertyId: Id, tenancyId: Id): (S: set<Id>)
    ensures S <= readings.Keys
    ensures forall k :: k in S <==>
      k in readings && readings[k].propertyId == propertyId && readings[k].tenancyId == tenancyId &&
      !readings[k].audit.isDeleted
  {
    set k | k in readings && readings[k].propertyId == propertyId && readings[k].tenancyId == tenancyId &&
      !readings[k].audit.isDeleted
  }

  /** The old indices of the next reading of a chain: the new indices of its
      latest reading by reading date, or the tenancy's baseline indices. */
  ghost function StartIndices(readings: map<Id, UtilityReading>, propertyId: Id, tenancyId: Id, t: Tenancy): (r: (int, int))
    ensures ChainOf(readings, propertyId, tenancyId) == {} ==> r == (t.electricOldIndex, t.waterOldIndex)
    ensures forall k :: IsNewest(readings, ChainOf(readings, propertyId, tenancyId), ReadingDate, k) ==>
      r == (readings[k].electricNewIndex, readings[k].waterNewIndex)
  {
    var chain := ChainOf(readings, propertyId, tenancyId);
    match NewestOf(readings, chain, ReadingDate)
    case None => (t.electricOldIndex, t.waterOldIndex)
    case Some(k) =>
      forall j | IsNewest(readings, chain, ReadingDate, j)
        ensures j == k
      {
        NewestUnique(readings, chain, ReadingDate, j, k);
      }
      (readings[k].electricNewIndex, readings[k].waterNewIndex)
  }

  /** The record a successful creation inserts. */
  function NewReading(now: DateTime, userId: Id, req: CreateReadingRequest, start: (int, int)): UtilityReading
  {
    UtilityReading(Inserted(now), req.propertyId, req.tenancyId, req.readingDate,
      start.0, req.electricNewIndex, start.1, req.waterNewIndex, false, userId)
  }

  /** Property and tenancy are live and the tenancy is on that property. */
  predicate SameProperty(st: State, req: CreateReadingRequest)
  {
    st.LiveProperty(req.propertyId) && st.LiveTenancy(req.tenancyId) &&
    st.tenancies[req.tenancyId].propertyId == req.propertyId
  }

  ghost function CreateReading(st: State, now: DateTime, userId: Id, req: CreateReadingRequest): (o: Outcome<ReadingView>)
    requires st.Valid() && CreateRequestInRange(req)
    ensures o.result.Err? ==> o.post == st
    ensures !st.LiveProperty(req.propertyId) || !st.LiveTenancy(req.tenancyId) ==> o.result == Err(NotFound)
    ensures st.LiveProperty(req.propertyId) && st.LiveTenancy(req.tenancyId) &&
      st.tenancies[req.tenancyId].propertyId != req.propertyId
      ==> o.result == Err(BadRequest(PropertyMismatch))
    ensures SameProperty(st, req) && !IsParty(st.tenancies[req.tenancyId], userId) ==> o.result == Err(Forbidden)
    ensures SameProperty(st, req) && IsParty(st.tenancies[req.tenancyId], userId) &&
      req.electricNewIndex < StartIndices(st.readings, req.propertyId, req.tenancyId, st.tenancies[req.tenancyId]).0
      ==> o.result == Err(BadRequest(ElectricIndex))
    ensures (SameProperty(st, req) && IsParty(st.tenancies[req.tenancyId], userId) &&
      var start := StartIndices(st.readings, req.propertyId, req.tenancyId, st.tenancies[req.tenancyId]);
      start.0 <= req.electricNewIndex && req.waterNewIndex < start.1)
      ==> o.result == Err(BadRequest(WaterIndex))
    ensures o.result.Ok? <==>
      st.LiveProperty(req.propertyId) && st.LiveTenancy(req.tenancyId) &&
      st.tenancies[req.tenancyId].propertyId == req.propertyId && IsParty(st.tenancies[req.tenancyId], userId) &&
      var start := StartIndices(st.readings, req.propertyId, req.tenancyId, st.tenancies[req.tenancyId]);
      start.0 <= req.electricNewIndex && start.1 <= req.waterNewIndex
    ensures o.result.Ok? ==>
      var id := o.result.value.id;
      id == st.nextId && id !in st.readings && id in o.post.readings &&
      o.post == st.(readings := st.readings[id := o.post.readings[id]], nextId := id + 1) &&
      var r := o.post.readings[id];
      o.result.value == View(id, r) && Forward(r) && !r.isCharged && !r.audit.isDeleted &&
      r.propertyId == req.propertyId && r.tenancyId == req.tenancyId && r.readingDate == req.readingDate &&
      r.createdById == userId &&
      r.electricNewIndex == req.electricNewIndex && r.waterNewIndex == req.waterNewIndex &&
      (r.electricOldIndex, r.waterOldIndex) ==
        StartIndices(st.readings, req.propertyId, req.tenancyId, st.tenancies[req.tenancyId])
    ensures ChargesKept(st.readings, o.post.readings)
  {
    if !st.LiveProperty(req.propertyId) || !st.LiveTenancy(req.tenancyId) then Fail(st, NotFound)
    else
      var t := st.tenancies[req.tenancyId];
      if t.propertyId != req.propertyId then Fail(st, BadRequest(PropertyMismatch))
      else if !IsParty(t, userId) then Fail(st, Forbidden)
      else
        var start := StartIndices(st.readings, req.propertyId, req.tenancyId, t);
        if req.electricNewIndex < start.0 then Fail(st, BadRequest(ElectricIndex))
        else if req.waterNewIndex < start.1 then Fail(st, BadRequest(WaterIndex))
        else
          var id := st.nextId;
          var r := NewReading(now, userId, req, start);
          Outcome(Ok(View(id, r)), st.(readings := st.readings[id := r], nextId := id + 1))
  }

  /** A reading dated no earlier than the rest of its chain becomes the
      chain's latest: the next reading of that property and tenancy starts
      from this reading's new indices. */
  lemma {:induction false} CreateContinuesChain(st: State, now: DateTime, userId: Id, req: CreateReadingRequest)
    requires st.Valid() && CreateRequestInRange(req)
    requires CreateReading(st, now, userId, req).result.Ok?
    requires forall k :: k in ChainOf(st.readings, req.propertyId, req.tenancyId) ==>
      !Before(req.readingDate, st.readings[k].readingDate)
    ensures var o := CreateReading(st, now, userId, req);
      StartIndices(o.post.readings, req.propertyId, req.tenancyId, o.post.tenancies[req.tenancyId]) ==
        (req.electricNewIndex, req.waterNewIndex)
  {
    var o := CreateReading(st, now, userId, req);
    var id := st.nextId;
    var m := o.post.readings;
    var chain := ChainOf(m, req.propertyId, req.tenancyId);
    forall j | j in chain && j != id
      ensures Precedes(ReadingDate(m[id]), id, ReadingDate(m[j]), j)
    {
      assert j in ChainOf(st.readings, req.propertyId, req.tenancyId);
      BeforeIsStrictTotalOrder(m[id].readingDate, m[j].readingDate, m[j].readingDate);
    }
    assert IsNewest(m, chain, ReadingDate, id);
  }

  datatype UpdateReadingRequest = UpdateReadingRequest(
    electricNewIndex: int,
    waterNewIndex: int,
    readingDate: Option<DateTime>)

  predicate UpdateRequestInRange(req: UpdateReadingRequest)
  {
    req.electricNewIndex >= 0 && req.waterNewIndex >= 0
  }

  function UpdateReading(st: State, readingId: Id, userId: Id, req: UpdateReadingRequest): (o: Outcome<ReadingView>)
    requires UpdateRequestInRange(req)
    ensures o.result.Err? ==> o.post == st
    ensures !st.LiveReading(readingId) ==> o.result == Err(NotFound)
    ensures st.LiveReading(readingId) && st.readings[readingId].isCharged ==> o.result == Err(Conflict)
    ensures st.LiveReading(readingId) && !st.readings[readingId].isCharged &&
      st.readings[readingId].tenancyId !in st.tenancies
      ==> o.result == Err(NotFound)
    ensures st.LiveReading(readingId) && !st.readings[readingId].isCharged &&
      st.readings[readingId].tenancyId in st.tenancies &&
      !IsParty(st.tenancies[st.readings[readingId].tenancyId], userId)
      ==> o.result == Err(Forbidden)
    ensures st.LiveReading(readingId) && !st.readings[readingId].isCharged &&
      st.readings[readingId].tenancyId in st.tenancies &&
      IsParty(st.tenancies[st.readings[readingId].tenancyId], userId) &&
      req.electricNewIndex < st.readings[readingId].electricOldIndex
      ==> o.result == Err(BadRequest(ElectricIndex))
    ensures st.LiveReading(readingId) && !st.readings[readingId].isCharged &&
      st.readings[readingId].tenancyId in st.tenancies &&
      IsParty(st.tenancies[st.readings[readingId].tenancyId], userId) &&
      st.readings[readingId].electricOldIndex <= req.electricNewIndex &&
      req.waterNewIndex < st.readings[readingId].waterOldIndex
      ==> o.result == Err(BadRequest(WaterIndex))
    ensures o.result.Ok? <==>
      st.LiveReading(readingId) && !st.readings[readingId].isCharged &&
      st.readings[readingId].tenancyId in st.tenancies &&
      IsParty(st.tenancies[st.readings[readingId].tenancyId], userId) &&
      st.readings[readingId].electricOldIndex <= req.electricNewIndex &&
      st.readings[readingId].waterOldIndex <= req.waterNewIndex
    ensures o.result.Ok? ==>
      var was := st.readings[readingId];
      var r := o.result.value.reading;
      o.result.value == View(readingId, r) &&
      o.post == st.(readings := st.readings[readingId := r]) &&
      Forward(r) && !r.isCharged &&
      r.electricOldIndex == was.electricOldIndex && r.waterOldIndex == was.waterOldIndex &&
      r.electricNewIndex == req.electricNewIndex && r.waterNewIndex == req.waterNewIndex &&
      r.readingDate == OrElse(req.readingDate, was.readingDate) &&
      r == was.(electricNewIndex := r.electricNewIndex, waterNewIndex := r.waterNewIndex, readingDate := r.readingDate)
    ensures ChargesKept(st.readings, o.post.readings)
  {
    if !st.LiveReading(readingId) then Fail(st, NotFound)
    else
      var was := st.readings[readingId];
      if was.isCharged then Fail(st, Conflict)
      else if was.tenancyId !in st.tenancies then Fail(st, NotFound)
      else if !IsParty(st.tenancies[was.tenancyId], userId) then Fail(st, Forbidden)
      else if req.electricNewIndex < was.electricOldIndex then Fail(st, BadRequest(ElectricIndex))
      else if req.waterNewIndex < was.waterOldIndex then Fail(st, BadRequest(WaterIndex))
      else
        var r := was.(electricNewIndex := req.electricNewIndex, waterNewIndex := req.waterNewIndex,
                      readingDate := OrElse(req.readingDate, was.readingDate));
        Outcome(Ok(View(readingId, r)), st.(readings := st.readings[readingId := r]))
  }

  function MarkAsCharged(st: State, readingId: Id, userId: Id): (o: Outcome<bool>)
    ensures o.result.Err? ==> o.post == st
    ensures !st.LiveReading(readingId) ==> o.result == Err(NotFound)
    ensures st.LiveReading(readingId) && st.readings[readingId].tenancyId !in st.tenancies ==> o.result == Err(NotFound)
    ensures st.LiveReading(readingId) && st.readings[readingId].tenancyId in st.tenancies &&
      st.tenancies[st.readings[readingId].tenancyId].ownerId != userId
      ==> o.result == Err(Forbidden)
    ensures o.result.Ok? <==>
      st.LiveReading(readingId) && st.readings[readingId].tenancyId in st.tenancies &&
      st.tenancies[st.readings[readingId].tenancyId].ownerId == userId &&
      !st.readings[readingId].isCharged
    ensures o.result.Ok? ==>
      o.result.value &&
      o.post == st.(readings := st.readings[readingId := st.readings[readingId].(isCharged := true)])
    ensures o.result.Err? && st.LiveReading(readingId) && st.readings[readingId].tenancyId in st.tenancies &&
      st.tenancies[st.readings[readingId].tenancyId].ownerId == userId
      ==> o.result == Err(Conflict) && st.readings[readingId].isCharged
    ensures ChargesKept(st.readings, o.post.readings)
  {
    if !st.LiveReading(readingId) then Fail(st, NotFound)
    else
      var was := st.readings[readingId];
      if was.tenancyId !in st.tenancies then Fail(st, NotFound)
      else if st.tenancies[was.tenancyId].ownerId != userId then Fail(st, Forbidden)
      else if was.isCharged then Fail(st, Conflict)
      else Outcome(Ok(true), st.(readings := st.readings[readingId := was.(isCharged := true)]))
  }

  /** Charging is one-shot: the owner who charged a reading is refused a second time. */
  lemma ChargeTwiceFails(st: State, readingId: Id, userId: Id)
    requires MarkAsCharged(st, readingId, userId).result.Ok?
    ensures MarkAsCharged(MarkAsCharged(st, readingId, userId).post, readingId, userId).result == Err(Conflict)
  {
  }

  function DeleteReading(st: State, now: DateTime, readingId: Id, userId: Id): (o: Outcome<bool>)
    ensures o.result.Err? ==> o.post == st
    ensures !st.LiveReading(readingId) ==> o.result == Err(NotFound)
    ensures st.LiveReading(readingId) && st.readings[readingId].isCharged ==> o.result == Err(Conflict)
    ensures st.LiveReading(readingId) && !st.readings[readingId].isCharged &&
      st.readings[readingId].tenancyId !in st.tenancies
      ==> o.result == Err(NotFound)
    ensures o.result.Ok? <==>
      st.LiveReading(readingId) && !st.readings[readingId].isCharged &&
      st.readings[readingId].tenancyId in st.tenancies &&
      st.tenancies[st.readings[readingId].tenancyId].ownerId == userId
    ensures st.LiveReading(readingId) && !st.readings[readingId].isCharged &&
      st.readings[readingId].tenancyId in st.tenancies &&
      st.tenancies[st.readings[readingId].tenancyId].ownerId != userId
      ==> o.result == Err(Forbidden)
    ensures o.result.Ok? ==>
      var was := st.readings[readingId];
      o.result.value &&
      o.post == st.(readings := st.readings[readingId := was.(audit := SoftRemoved(was.audit, now, userId))])
    ensures ChargesKept(st.readings, o.post.readings)
  {
    if !st.LiveReading(readingId) then Fail(st, NotFound)
    else
      var was := st.readings[readingId];
      if was.isCharged then Fail(st, Conflict)
      else if was.tenancyId !in st.tenancies then Fail(st, NotFound)
      else if st.tenancies[was.tenancyId].ownerId != userId then Fail(st, Forbidden)
      else Outcome(Ok(true), st.(readings := st.readings[readingId := was.(audit := SoftRemoved(was.audit, now, userId))]))
  }

  /** The tenant of a tenancy may record and correct readings but not delete them. */
  lemma TenantCannotDelete(st: State, now: DateTime, readingId: Id, userId: Id)
    requires st.LiveReading(readingId) && !st.readings[readingId].isCharged
    requires st.readings[readingId].tenancyId in st.tenancies
    requires st.tenancies[st.readings[readingId].tenancyId].tenantId == userId
    requires st.tenancies[st.readings[readingId].tenancyId].ownerId != userId
    ensures DeleteReading(st, now, readingId, userId).result == Err(Forbidden)
    ensures forall req ::
      (UpdateRequestInRange(req) &&
       st.readings[readingId].electricOldIndex <= req.electricNewIndex &&
       st.readings[readingId].waterOldIndex <= req.waterNewIndex)
      ==> UpdateReading(st, readingId, userId, req).result.Ok?
  {
  }

  function GetReadingById(st: State, readingId: Id, userId: Id): (r: Result<ReadingView>)
    ensures !st.LiveReading(readingId) ==> r == Err(NotFound)
    ensures st.LiveReading(readingId) && st.readings[readingId].tenancyId !in st.tenancies ==> r == Err(NotFound)
    ensures r == Err(Forbidden) <==>
      st.LiveReading(readingId) && st.readings[readingId].tenancyId in st.tenancies &&
      !IsParty(st.tenancies[st.readings[readingId].tenancyId], userId)
    ensures r.Ok? <==>
      st.LiveReading(readingId) && st.readings[readingId].tenancyId in st.tenancies &&
      IsParty(st.tenancies[st.readings[readingId].tenancyId], userId)
    ensures r.Ok? ==> r.value == View(readingId, st.readings[readingId])
  {
    if !st.LiveReading(readingId) then Err(NotFound)
    else
      var reading := st.readings[readingId];
      if reading.tenancyId !in st.tenancies then Err(NotFound)
      else if !IsParty(st.tenancies[reading.tenancyId], userId) then Err(Forbidden)
      else Ok(View(readingId, reading))
  }

  /** The optional filters of the list readers. */
  datatype ReadingFilter = ReadingFilter(isCharged: Option<bool>, fromDate: Option<DateTime>, toDate: Option<DateTime>)

  predicate PassesFilter(f: ReadingFilter, r: UtilityReading)
  {
    (f.isCharged.Some? ==> r.isCharged == f.isCharged.value) &&
    (f.fromDate.Some? ==> !Before(r.readingDate, f.fromDate.value)) &&
    (f.toDate.Some? ==> !Before(f.toDate.value, r.readingDate))
  }

  /** The non-deleted readings of a property that pass the filter. */
  function ReadingsOfProperty(readings: map<Id, UtilityReading>, propertyId: Id, f: ReadingFilter): (S: set<Id>)
    ensures S <= readings.Keys
    ensures forall k :: k in S <==>
      k in readings && readings[k].propertyId == propertyId && !readings[k].audit.isDeleted &&
      PassesFilter(f, readings[k])
  {
    set k | k in readings && readings[k].propertyId == propertyId && !readings[k].audit.isDeleted &&
      PassesFilter(f, readings[k])
  }

  /** The non-deleted readings of a tenancy that pass the filter. */
  function ReadingsOfTenancy(readings: map<Id, UtilityReading>, tenancyId: Id, f: ReadingFilter): (S: set<Id>)
    ensures S <= readings.Keys
    ensures forall k :: k in S <==>
      k in readings && readings[k].tenancyId == tenancyId && !readings[k].audit.isDeleted &&
      PassesFilter(f, readings[k])
  {
    set k | k in readings && readings[k].tenancyId == tenancyId && !readings[k].audit.isDeleted &&
      PassesFilter(f, readings[k])
  }

  /** The non-deleted tenancies of a property, whatever their status. */
  function TenanciesOf(tenancies: map<Id, Tenancy>, propertyId: Id): (S: set<Id>)
    ensures S <= tenancies.Keys
    ensures forall k :: k in S <==> k in tenancies && tenancies[k].propertyId == propertyId && !tenancies[k].audit.isDeleted
  {
    set k | k in tenancies && tenancies[k].propertyId == propertyId && !tenancies[k].audit.isDeleted
  }

  /** The responses for a list of reading ids. */
  function Views(m: map<Id, UtilityReading>, s: seq<Id>): (r: seq<ReadingView>)
    requires forall i :: 0 <= i < |s| ==> s[i] in m
    ensures |r| == |s| && forall i :: 0 <= i < |s| ==> r[i] == View(s[i], m[s[i]])
  {
    seq(|s|, i requires 0 <= i < |s| => View(s[i], m[s[i]]))
  }

  /** The responses for rows `lo` up to `lo + n` of the newest-first listing of `S`. */
  ghost function ListingSlice(m: map<Id, UtilityReading>, S: set<Id>, lo: nat, n: int): seq<ReadingView>
    requires S <= m.Keys
  {
    Views(m, Slice(Listing(m, S, ReadingDate), lo, n))
  }

  /** One page of the readings `S`, newest reading date first, with the count of all of them. */
  ghost function ListReadings(m: map<Id, UtilityReading>, S: set<Id>, pageNumber: int, pageSize: int): (r: Pagination<ReadingView>)
    requires S <= m.Keys && !PageRejected(pageNumber, pageSize)
    ensures r.totalCount == |S| && |r.items| <= |S| && |r.items| <= pageSize
    ensures forall i :: 0 <= i < |r.items| ==> r.items[i].id in S && r.items[i] == View(r.items[i].id, m[r.items[i].id])
    ensures forall i, j :: 0 <= i < j < |r.items| ==> !Before(r.items[i].reading.readingDate, r.items[j].reading.readingDate)
    ensures 1 <= pageNumber && 1 <= pageSize && (pageNumber - 1) * pageSize <= Int32Max ==>
      (pageNumber - 1) * pageSize >= 0 &&
      r.items == ListingSlice(m, S, (pageNumber - 1) * pageSize, pageSize)
  {
    var listing := Listing(m, S, ReadingDate);
    var page := Page(listing, pageNumber, pageSize);
    PageNewestFirst(m, ReadingDate, listing, pageNumber, pageSize);
    PageIsSlice(listing, pageNumber, pageSize);
    Pagination(Views(m, page), |S|, pageNumber, pageSize)
  }

  /** The by-property readers admit the parties of the property's first
      non-deleted tenancy, which need not be its current one. */
  ghost function PropertyGate(st: State, propertyId: Id, userId: Id): (r: Result<bool>)
    ensures !st.LiveProperty(propertyId) ==> r == Err(NotFound)
    ensures st.LiveProperty(propertyId) && TenanciesOf(st.tenancies, propertyId) == {} ==> r == Err(NotFound)
    ensures st.LiveProperty(propertyId) && Least(TenanciesOf(st.tenancies, propertyId)).Some? &&
      !IsParty(st.tenancies[Least(TenanciesOf(st.tenancies, propertyId)).value], userId)
      ==> r == Err(Forbidden)
    ensures r.Ok? <==>
      st.LiveProperty(propertyId) && Least(TenanciesOf(st.tenancies, propertyId)).Some? &&
      IsParty(st.tenancies[Least(TenanciesOf(st.tenancies, propertyId)).value], userId)
    ensures r.Err? ==> r.error in {NotFound, Forbidden}
  {
    if !st.LiveProperty(propertyId) then Err(NotFound)
    else
      match Least(TenanciesOf(st.tenancies, propertyId))
      case None => Err(NotFound)
      case Some(first) => if IsParty(st.tenancies[first], userId) then Ok(true) else Err(Forbidden)
  }

  ghost function GetReadingsByProperty(st: State, propertyId: Id, userId: Id, pageNumber: int, pageSize: int, f: ReadingFilter)
    : (r: Result<Pagination<ReadingView>>)
    ensures PropertyGate(st, propertyId, userId).Err? ==> r == Err(PropertyGate(st, propertyId, userId).error)
    ensures PropertyGate(st, propertyId, userId).Ok? && PageRejected(pageNumber, pageSize) ==> r == Err(Failure(NegativePaging))
    ensures r.Ok? <==> PropertyGate(st, propertyId, userId).Ok? && !PageRejected(pageNumber, pageSize)
    ensures r.Ok? ==>
      r.value.totalCount == |ReadingsOfProperty(st.readings, propertyId, f)| &&
      forall i :: 0 <= i < |r.value.items| ==>
        var v := r.value.items[i];
        v.reading.propertyId == propertyId && !v.reading.audit.isDeleted && PassesFilter(f, v.reading)
    ensures r.Ok? ==>
      |r.value.items| <= pageSize &&
      (forall i, j :: 0 <= i < j < |r.value.items| ==>
        !Before(r.value.items[i].reading.readingDate, r.value.items[j].reading.readingDate)) &&
      (1 <= pageNumber && 1 <= pageSize && (pageNumber - 1) * pageSize <= Int32Max ==>
        (pageNumber - 1) * pageSize >= 0 &&
        r.value.items == ListingSlice(st.readings, ReadingsOfProperty(st.readings, propertyId, f), (pageNumber - 1) * pageSize, pageSize))
  {
    var gate := PropertyGate(st, propertyId, userId);
    if gate.Err? then Err(gate.error)
    else if PageRejected(pageNumber, pageSize) then Err(Failure(NegativePaging))
    else Ok(ListReadings(st.readings, ReadingsOfProperty(st.readings, propertyId, f), pageNumber, pageSize))
  }

  /** A tenant of the property's current tenancy is refused the property's
      readings when an earlier tenancy of another tenant is still on record. */
  lemma CurrentTenantMayBeRefused(st: State, propertyId: Id, earlier: Id, current: Id, pageNumber: int, pageSize: int, f: ReadingFilter)
    requires st.LiveProperty(propertyId)
    requires earlier in TenanciesOf(st.tenancies, propertyId) && current in TenanciesOf(st.tenancies, propertyId)
    requires earlier < current && st.tenancies[current].status == Active
    requires forall k :: k in TenanciesOf(st.tenancies, propertyId) ==> earlier <= k
    requires !IsParty(st.tenancies[earlier], st.tenancies[current].tenantId)
    ensures GetReadingsByProperty(st, propertyId, st.tenancies[current].tenantId, pageNumber, pageSize, f) == Err(Forbidden)
  {
    assert IsLeast(TenanciesOf(st.tenancies, propertyId), earlier);
  }

  ghost function GetReadingsByTenancy(st: State, tenancyId: Id, userId: Id, pageNumber: int, pageSize: int, f: ReadingFilter)
    : (r: Result<Pagination<ReadingView>>)
    ensures !st.LiveTenancy(tenancyId) ==> r == Err(NotFound)
    ensures r == Err(Forbidden) <==> st.LiveTenancy(tenancyId) && !IsParty(st.tenancies[tenancyId], userId)
    ensures st.LiveTenancy(tenancyId) && IsParty(st.tenancies[tenancyId], userId) && PageRejected(pageNumber, pageSize)
      ==> r == Err(Failure(NegativePaging))
    ensures r.Ok? <==> st.LiveTenancy(tenancyId) && IsParty(st.tenancies[tenancyId], userId) && !PageRejected(pageNumber, pageSize)
    ensures r.Ok? ==>
      r.value.totalCount == |ReadingsOfTenancy(st.readings, tenancyId, f)| &&
      forall i :: 0 <= i < |r.value.items| ==>
        var v := r.value.items[i];
        v.reading.tenancyId == tenancyId && !v.reading.audit.isDeleted && PassesFilter(f, v.reading)
    ensures r.Ok? ==>
      |r.value.items| <= pageSize &&
      (forall i, j :: 0 <= i < j < |r.value.items| ==>
        !Before(r.value.items[i].reading.readingDate, r.value.items[j].reading.readingDate)) &&
      (1 <= pageNumber && 1 <= pageSize && (pageNumber - 1) * pageSize <= Int32Max ==>
        (pageNumber - 1) * pageSize >= 0 &&
        r.value.items == ListingSlice(st.readings, ReadingsOfTenancy(st.readings, tenancyId, f), (pageNumber - 1) * pageSize, pageSize))
  {
    if !st.LiveTenancy(tenancyId) then Err(NotFound)
    else if !IsParty(st.tenancies[tenancyId], userId) then Err(Forbidden)
    else if PageRejected(pageNumber, pageSize) then Err(Failure(NegativePaging))
    else Ok(ListReadings(st.readings, ReadingsOfTenancy(st.readings, tenancyId, f), pageNumber, pageSize))
  }

  const NoFilter := ReadingFilter(None, None, None)

  ghost function GetLatestReading(st: State, propertyId: Id, userId: Id): (r: Result<Option<ReadingView>>)
    ensures r.Err? <==> PropertyGate(st, propertyId, userId).Err?
    ensures r.Err? ==> r == Err(PropertyGate(st, propertyId, userId).error)
    ensures r.Ok? ==>
      var S := ReadingsOfProperty(st.readings, propertyId, NoFilter);
      (r.value == None <==> S == {}) &&
      (r.value.Some? ==> IsNewest(st.readings, S, ReadingDate, r.value.value.id) &&
                         r.value.value == View(r.value.value.id, st.readings[r.value.value.id]))
  {
    var gate := PropertyGate(st, propertyId, userId);
    if gate.Err? then Err(gate.error)
    else
      match NewestOf(st.readings, ReadingsOfProperty(st.readings, propertyId, NoFilter), ReadingDate)
      case None => Ok(None)
      case Some(k) => Ok(Some(View(k, st.readings[k])))
  }
}
