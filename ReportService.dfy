/** The property-report operations over the unit of work, each proved to
    compute the outcome `ReportRules` gives it. */
module ReportService {
  import opened Core
  import opened Entities
  import opened Store
  import opened Query
  import ReportRules

  method CreateReport(db: UnitOfWork, now: DateTime, tenantId: Id, req: ReportRules.CreateReportRequest)
    returns (r: Result<Id>)
    requires db.Snapshot().Valid()
    modifies db
    ensures Outcome(r, db.Snapshot()) == ReportRules.CreateReport(old(db.Snapshot()), now, tenantId, req)
  {
    if req.tenancyId !in db.tenancies || db.tenancies[req.tenancyId].audit.isDeleted {
      return Err(Failure(Missing));
    }
    var tenancy := db.tenancies[req.tenancyId];
    if tenancy.tenantId != tenantId {
      return Err(Forbidden);
    }
    if tenancy.propertyId != req.propertyId {
      return Err(Failure(PropertyMismatch));
    }
    if req.propertyId !in db.properties || db.properties[req.propertyId].audit.isDeleted {
      return Err(Failure(Missing));
    }
    var report := ReportRules.NewReport(now, tenantId, req);
    var id := db.nextId;
    db.reports := db.reports[id := report];
    db.nextId := id + 1;
    r := Ok(id);
  }

  method UpdateReport(db: UnitOfWork, reportId: Id, tenantId: Id, req: ReportRules.UpdateReportRequest)
    returns (r: Result<PropertyReport>)
    modifies db
    ensures Outcome(r, db.Snapshot()) == ReportRules.UpdateReport(old(db.Snapshot()), reportId, tenantId, req)
  {
    if reportId !in db.reports || db.reports[reportId].audit.isDeleted {
      return Err(Failure(Missing));
    }
    var report := db.reports[reportId];
    if report.requestedById != tenantId {
      return Err(Forbidden);
    }
    if report.priority == Complete {
      return Err(Failure(ReportComplete));
    }
    if !Blank(req.title) {
      report := report.(title := req.title.value);
    }
    if !Blank(req.description) {
      report := report.(description := req.description.value);
    }
    if req.priority.Some? {
      report := report.(priority := req.priority.value);
    }
    db.reports := db.reports[reportId := report];
    r := Ok(report);
  }

  method UpdateReportStatus(db: UnitOfWork, reportId: Id, ownerId: Id, priority: Priority)
    returns (r: Result<PropertyReport>)
    modifies db
    ensures Outcome(r, db.Snapshot()) == ReportRules.UpdateReportStatus(old(db.Snapshot()), reportId, ownerId, priority)
  {
    if reportId !in db.reports || db.reports[reportId].audit.isDeleted {
      return Err(Failure(Missing));
    }
    var report := db.reports[reportId];
    if report.propertyId !in db.properties || db.properties[report.propertyId].audit.isDeleted {
      return Err(Failure(Missing));
    }
    if db.properties[report.propertyId].ownerId != ownerId {
      return Err(Forbidden);
    }
    report := report.(priority := priority);
    db.reports := db.reports[reportId := report];
    r := Ok(report);
  }

  method DeleteReport(db: UnitOfWork, now: DateTime, reportId: Id, userId: Id) returns (r: Result<bool>)
    modifies db
    ensures Outcome(r, db.Snapshot()) == ReportRules.DeleteReport(old(db.Snapshot()), now, reportId, userId)
  {
    if reportId !in db.reports || db.reports[reportId].audit.isDeleted {
      return Ok(false);
    }
    var report := db.reports[reportId];
    var propertyOwner := None;
    if report.propertyId in db.properties {
      propertyOwner := Some(db.properties[report.propertyId].ownerId);
    }
    if report.requestedById != userId && propertyOwner != Some(userId) {
      return Err(Forbidden);
    }
    report := report.(audit := SoftRemoved(report.audit, now, userId));
    db.reports := db.reports[reportId := report];
    r := Ok(true);
  }

  method GetReportById(db: UnitOfWork, reportId: Id) returns (r: Option<PropertyReport>)
    ensures r == ReportRules.GetReportById(db.Snapshot(), reportId)
  {
    if reportId !in db.reports || db.reports[reportId].audit.isDeleted {
      return None;
    }
    r := Some(db.reports[reportId]);
  }

  /** First the ids of the owner's live properties, then the live reports on them. */
  method GetReportsByOwner(db: UnitOfWork, ownerId: Id) returns (r: seq<PropertyReport>)
    ensures r == ReportRules.GetReportsByOwner(db.Snapshot(), ownerId)
  {
    var properties := db.properties;
    var ownerProperties := set p | p in properties && properties[p].ownerId == ownerId && !properties[p].audit.isDeleted;
    var m := db.reports;
    var query := set k | k in m && m[k].propertyId in ownerProperties && !m[k].audit.isDeleted;
    assert query == ReportRules.ReportsOfOwner(db.Snapshot(), ownerId);
    var ordered := ListNewestFirst(m, query, ReportRules.ReportCreatedAt);
    r := Rows(m, ordered);
  }

  method GetReportsByTenant(db: UnitOfWork, tenantId: Id) returns (r: seq<PropertyReport>)
    ensures r == ReportRules.GetReportsWhere(db.Snapshot(), ReportRules.RequesterOf, tenantId)
  {
    var m := db.reports;
    var query := set k | k in m && m[k].requestedById == tenantId && !m[k].audit.isDeleted;
    r := ListWhere(m, query, ReportRules.RequesterOf, tenantId);
  }

  method GetReportsByProperty(db: UnitOfWork, propertyId: Id) returns (r: seq<PropertyReport>)
    ensures r == ReportRules.GetReportsWhere(db.Snapshot(), ReportRules.PropertyOf, propertyId)
  {
    var m := db.reports;
    var query := set k | k in m && m[k].propertyId == propertyId && !m[k].audit.isDeleted;
    r := ListWhere(m, query, ReportRules.PropertyOf, propertyId);
  }

  method GetReportsByTenancy(db: UnitOfWork, tenancyId: Id) returns (r: seq<PropertyReport>)
    ensures r == ReportRules.GetReportsWhere(db.Snapshot(), ReportRules.TenancyOf, tenancyId)
  {
    var m := db.reports;
    var query := set k | k in m && m[k].tenancyId == tenancyId && !m[k].audit.isDeleted;
    r := ListWhere(m, query, ReportRules.TenancyOf, tenancyId);
  }

  /** Orders the matched reports newest first and loads them. */
  method ListWhere(m: map<Id, PropertyReport>, query: set<Id>, key: PropertyReport -> Id, id: Id)
    returns (r: seq<PropertyReport>)
    requires query == ReportRules.ReportsWhere(m, key, id)
    ensures r == Rows(m, Listing(m, query, ReportRules.ReportCreatedAt))
  {
    var ordered := ListNewestFirst(m, query, ReportRules.ReportCreatedAt);
    r := Rows(m, ordered);
  }
}
