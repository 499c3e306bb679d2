/** What each property-report operation does to the database. A refused
    permission is `Forbidden`; the other refusals of this service carry no
    status code and are `Failure` with their cause. */
module ReportRules {
  import opened Core
  import opened Entities
  import opened Store
  import opened Query

  datatype CreateReportRequest = CreateReportRequest(
    propertyId: Id,
    tenancyId: Id,
    title: string,
    description: string,
    priority: Priority)

  /** The record a successful creation inserts. */
  function NewReport(now: DateTime, tenantId: Id, req: CreateReportRequest): PropertyReport
  {
    PropertyReport(Inserted(now), req.propertyId, req.tenancyId, tenantId, req.title, req.description, req.priority)
  }

  /** Only the tenant of the tenancy may report, and only on the tenancy's own property. */
  function CreateReport(st: State, now: DateTime, tenantId: Id, req: CreateReportRequest): (o: Outcome<Id>)
    requires st.Valid()
    ensures o.result.Err? ==> o.post == st
    ensures !st.LiveTenancy(req.tenancyId) ==> o.result == Err(Failure(Missing))
    ensures st.LiveTenancy(req.tenancyId) && st.tenancies[req.tenancyId].tenantId != tenantId
      ==> o.result == Err(Forbidden)
    ensures st.LiveTenancy(req.tenancyId) && st.tenancies[req.tenancyId].tenantId == tenantId &&
      st.tenancies[req.tenancyId].propertyId != req.propertyId
      ==> o.result == Err(Failure(PropertyMismatch))
    ensures st.LiveTenancy(req.tenancyId) && st.tenancies[req.tenancyId].tenantId == tenantId &&
      st.tenancies[req.tenancyId].propertyId == req.propertyId && !st.LiveProperty(req.propertyId)
      ==> o.result == Err(Failure(Missing))
    ensures o.result.Ok? <==>
      st.LiveTenancy(req.tenancyId) && st.tenancies[req.tenancyId].tenantId == tenantId &&
      st.tenancies[req.tenancyId].propertyId == req.propertyId && st.LiveProperty(req.propertyId)
    ensures o.result.Ok? ==>
      var id := o.result.value;
      id == st.nextId && id !in st.reports && id in o.post.reports &&
      o.post == st.(reports := st.reports[id := o.post.reports[id]], nextId := id + 1) &&
      var r := o.post.reports[id];
      r.requestedById == tenantId && r.propertyId == req.propertyId && r.tenancyId == req.tenancyId &&
      r.title == req.title && r.description == req.description && r.priority == req.priority &&
      !r.audit.isDeleted && r.audit.createdAt == now
  {
    if !st.LiveTenancy(req.tenancyId) then Fail(st, Failure(Missing))
    else
      var tenancy := st.tenancies[req.tenancyId];
      if tenancy.tenantId != tenantId then Fail(st, Forbidden)
      else if tenancy.propertyId != req.propertyId then Fail(st, Failure(PropertyMismatch))
      else if !st.LiveProperty(req.propertyId) then Fail(st, Failure(Missing))
      else
        var id := st.nextId;
        Outcome(Ok(id), st.(reports := st.reports[id := NewReport(now, tenantId, req)], nextId := id + 1))
  }

  /** The optional fields of an update; `None` leaves the stored value. */
  datatype UpdateReportRequest = UpdateReportRequest(
    title: Option<string>,
    description: Option<string>,
    priority: Option<Priority>)

  function UpdateReport(st: State, reportId: Id, tenantId: Id, req: UpdateReportRequest): (o: Outcome<PropertyReport>)
    ensures o.result.Err? ==> o.post == st
    ensures !st.LiveReport(reportId) ==> o.result == Err(Failure(Missing))
    ensures st.LiveReport(reportId) && st.reports[reportId].requestedById != tenantId ==> o.result == Err(Forbidden)
    ensures st.LiveReport(reportId) && st.reports[reportId].requestedById == tenantId &&
      st.reports[reportId].priority == Complete
      ==> o.result == Err(Failure(ReportComplete))
    ensures o.result.Ok? <==>
      st.LiveReport(reportId) && st.reports[reportId].requestedById == tenantId &&
      st.reports[reportId].priority != Complete
    ensures o.result.Ok? ==>
      var was, r := st.reports[reportId], o.result.value;
      o.post == st.(reports := st.reports[reportId := r]) &&
      r.propertyId == was.propertyId && r.tenancyId == was.tenancyId &&
      r.requestedById == was.requestedById && r.audit == was.audit &&
      r.title == (if Blank(req.title) then was.title else req.title.value) &&
      r.description == (if Blank(req.description) then was.description else req.description.value) &&
      r.priority == OrElse(req.priority, was.priority)
  {
    if !st.LiveReport(reportId) then Fail(st, Failure(Missing))
    else
      var was := st.reports[reportId];
      if was.requestedById != tenantId then Fail(st, Forbidden)
      else if was.priority == Complete then Fail(st, Failure(ReportComplete))
      else
        var r := was.(
          title := if Blank(req.title) then was.title else req.title.value,
          description := if Blank(req.description) then was.description else req.description.value,
          priority := OrElse(req.priority, was.priority));
        Outcome(Ok(r), st.(reports := st.reports[reportId := r]))
  }

  /** The requester can mark their own report complete, and from then on
      every update of theirs is refused, whatever it carries. */
  lemma CompleteFreezesRequester(st: State, reportId: Id, tenantId: Id, req: UpdateReportRequest, next: UpdateReportRequest)
    requires req.priority == Some(Complete)
    requires UpdateReport(st, reportId, tenantId, req).result.Ok?
    ensures UpdateReport(UpdateReport(st, reportId, tenantId, req).post, reportId, tenantId, next).result
      == Err(Failure(ReportComplete))
  {
    var post := UpdateReport(st, reportId, tenantId, req).post;
    assert post.reports[reportId].priority == Complete;
  }

  /** The property owner sets any priority: a complete report can be reopened. */
  function UpdateReportStatus(st: State, reportId: Id, ownerId: Id, priority: Priority): (o: Outcome<PropertyReport>)
    ensures o.result.Err? ==> o.post == st
    ensures !st.LiveReport(reportId) ==> o.result == Err(Failure(Missing))
    ensures st.LiveReport(reportId) && !st.LiveProperty(st.reports[reportId].propertyId) ==> o.result == Err(Failure(Missing))
    ensures st.LiveReport(reportId) && st.LiveProperty(st.reports[reportId].propertyId) &&
      st.properties[st.reports[reportId].propertyId].ownerId != ownerId
      ==> o.result == Err(Forbidden)
    ensures o.result.Ok? <==>
      st.LiveReport(reportId) && st.LiveProperty(st.reports[reportId].propertyId) &&
      st.properties[st.reports[reportId].propertyId].ownerId == ownerId
    ensures o.result.Ok? ==>
      var r := st.reports[reportId].(priority := priority);
      o.result.value == r && o.post == st.(reports := st.reports[reportId := r])
  {
    if !st.LiveReport(reportId) then Fail(st, Failure(Missing))
    else
      var was := st.reports[reportId];
      if !st.LiveProperty(was.propertyId) then Fail(st, Failure(Missing))
      else if st.properties[was.propertyId].ownerId != ownerId then Fail(st, Forbidden)
      else
        var r := was.(priority := priority);
        Outcome(Ok(r), st.(reports := st.reports[reportId := r]))
  }

  /** A report the requester can no longer edit is editable again after its
      owner moves it to any open priority. */
  lemma OwnerReopensFrozenReport(st: State, reportId: Id, ownerId: Id, rank: nat, req: UpdateReportRequest)
    requires st.LiveReport(reportId) && st.reports[reportId].priority == Complete
    requires UpdateReportStatus(st, reportId, ownerId, Open(rank)).result.Ok?
    ensures UpdateReport(st, reportId, st.reports[reportId].requestedById, req).result == Err(Failure(ReportComplete))
    ensures UpdateReport(UpdateReportStatus(st, reportId, ownerId, Open(rank)).post, reportId,
                         st.reports[reportId].requestedById, req).result.Ok?
  {
    var post := UpdateReportStatus(st, reportId, ownerId, Open(rank)).post;
    assert post.reports[reportId].priority == Open(rank);
  }

  /** The requester, or the owner of the report's property (deleted or not),
      may delete; a missing or already deleted report gives `false`. */
  function DeleteReport(st: State, now: DateTime, reportId: Id, userId: Id): (o: Outcome<bool>)
    ensures o.result.Err? ==> o.post == st
    ensures !st.LiveReport(reportId) ==> o == Outcome(Ok(false), st)
    ensures o.result.Err? <==>
      st.LiveReport(reportId) && st.reports[reportId].requestedById != userId &&
      !(st.reports[reportId].propertyId in st.properties && st.properties[st.reports[reportId].propertyId].ownerId == userId)
    ensures o.result.Err? ==> o.result.error == Forbidden
    ensures o.result == Ok(true) ==>
      var was := st.reports[reportId];
      o.post == st.(reports := st.reports[reportId := was.(audit := SoftRemoved(was.audit, now, userId))]) &&
      !o.post.LiveReport(reportId)
  {
    if !st.LiveReport(reportId) then Outcome(Ok(false), st)
    else
      var was := st.reports[reportId];
      var propertyOwner := if was.propertyId in st.properties then Some(st.properties[was.propertyId].ownerId) else None;
      if was.requestedById != userId && propertyOwner != Some(userId) then Fail(st, Forbidden)
      else Outcome(Ok(true), st.(reports := st.reports[reportId := was.(audit := SoftRemoved(was.audit, now, userId))]))
  }

  /** A second delete finds nothing live and reports `false`. */
  lemma DeleteTwiceIsFalse(st: State, now: DateTime, reportId: Id, userId: Id, later: DateTime)
    requires DeleteReport(st, now, reportId, userId).result == Ok(true)
    ensures var post := DeleteReport(st, now, reportId, userId).post;
      DeleteReport(post, later, reportId, userId) == Outcome(Ok(false), post)
  {
  }

  function GetReportById(st: State, reportId: Id): (r: Option<PropertyReport>)
    ensures r.Some? <==> st.LiveReport(reportId)
    ensures r.Some? ==> r.value == st.reports[reportId]
  {
    if st.LiveReport(reportId) then Some(st.reports[reportId]) else None
  }

  function ReportCreatedAt(r: PropertyReport): DateTime { r.audit.createdAt }

  /** The live properties of an owner. */
  function OwnedProperties(st: State, ownerId: Id): (P: set<Id>)
    ensures forall p :: p in P <==> st.LiveProperty(p) && st.properties[p].ownerId == ownerId
  {
    set p | p in st.properties && st.properties[p].ownerId == ownerId && !st.properties[p].audit.isDeleted
  }

  /** The live reports on the owner's live properties. */
  function ReportsOfOwner(st: State, ownerId: Id): (S: set<Id>)
    ensures S <= st.reports.Keys
    ensures forall k :: k in S <==> st.LiveReport(k) && st.reports[k].propertyId in OwnedProperties(st, ownerId)
  {
    var P := OwnedProperties(st, ownerId);
    set k | k in st.reports && st.reports[k].propertyId in P && !st.reports[k].audit.isDeleted
  }

  /** The live reports whose `key` is `id`. */
  function ReportsWhere(reports: map<Id, PropertyReport>, key: PropertyReport -> Id, id: Id): (S: set<Id>)
    ensures S <= reports.Keys
    ensures forall k :: k in S <==> k in reports && key(reports[k]) == id && !reports[k].audit.isDeleted
  {
    set k | k in reports && key(reports[k]) == id && !reports[k].audit.isDeleted
  }

  function RequesterOf(r: PropertyReport): Id { r.requestedById }
  function PropertyOf(r: PropertyReport): Id { r.propertyId }
  function TenancyOf(r: PropertyReport): Id { r.tenancyId }

  /** The reports on the owner's properties: every one of them once, newest first. */
  ghost function GetReportsByOwner(st: State, ownerId: Id): (r: seq<PropertyReport>)
    ensures |r| == |ReportsOfOwner(st, ownerId)|
    ensures forall k :: k in ReportsOfOwner(st, ownerId) ==> st.reports[k] in r
    ensures forall i :: 0 <= i < |r| ==>
      !r[i].audit.isDeleted && st.LiveProperty(r[i].propertyId) && st.properties[r[i].propertyId].ownerId == ownerId
    ensures forall i, j :: 0 <= i < j < |r| ==> !Before(ReportCreatedAt(r[i]), ReportCreatedAt(r[j]))
  {
    var P := OwnedProperties(st, ownerId);
    Listed(st.reports, ReportsOfOwner(st, ownerId), ReportCreatedAt, (r: PropertyReport) => !r.audit.isDeleted && r.propertyId in P)
  }

  /** The live reports whose `key` is `id`: every one of them once, newest first. */
  ghost function GetReportsWhere(st: State, key: PropertyReport -> Id, id: Id): (r: seq<PropertyReport>)
    ensures |r| == |ReportsWhere(st.reports, key, id)|
    ensures forall k :: k in ReportsWhere(st.reports, key, id) ==> st.reports[k] in r
    ensures forall i :: 0 <= i < |r| ==> !r[i].audit.isDeleted && key(r[i]) == id
    ensures forall i, j :: 0 <= i < j < |r| ==> !Before(ReportCreatedAt(r[i]), ReportCreatedAt(r[j]))
  {
    Listed(st.reports, ReportsWhere(st.reports, key, id), ReportCreatedAt, (r: PropertyReport) => !r.audit.isDeleted && key(r) == id)
  }

  /** The owner's list is the union of the by-property lists of the owner's
      live properties. */
  lemma OwnerListIsUnionOfPropertyLists(st: State, ownerId: Id, k: Id)
    ensures k in ReportsOfOwner(st, ownerId) <==>
      exists p :: p in OwnedProperties(st, ownerId) && k in ReportsWhere(st.reports, PropertyOf, p)
  {
    if k in ReportsOfOwner(st, ownerId) {
      assert k in ReportsWhere(st.reports, PropertyOf, st.reports[k].propertyId);
    }
  }
}
