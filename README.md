# HomerLy rental services in Dafny

HomerLy is a rental-management application. Owners list properties, sign tenancies with tenants, record utility-meter readings, issue invoices, and receive maintenance reports. Administrators manage accounts. This project models the business-service layer behind all of that in Dafny:

- the tenancy, utility-reading, invoice, property, property-report, account and authentication services;
- the revenue figures of the owner's property details page.

Every service operation follows one pattern. It loads records by id, then runs a chain of guards; each failing guard raises a typed error (not found, forbidden, bad request, conflict, unauthorized). If all guards pass, it assigns fields and commits last, so a failed guard leaves the database untouched.

The model has the same structure:

- `Store` holds the database as a value, `State`: one map per entity kind from id to record, plus the next fresh id. Every record carries its soft-delete audit fields. `Store.UnitOfWork` is a class with the same fields, and the service methods update it in place.
- Each `…Rules` module states what an operation does, as a function from the state before to an `Outcome`. An outcome is the result (a value or an `Error`) together with the state after. Its contract gives the guard order, the error for each failed guard, both directions of "succeeds if and only if", and the complete new state. The lemmas beside it state the properties that relate several operations.
- Each `…Service` module implements the operations as methods over a `UnitOfWork`. Their loops, filters and field-by-field assignments follow the source. Each method is proved to produce exactly the outcome its `…Rules` function gives.
- `Query` models the LINQ shapes the services use:
  - `Where` is a set of ids;
  - `OrderByDescending` on a date is a listing that is proved strictly newest first;
  - `FirstOrDefault` with no ordering picks the smallest id;
  - `Skip`/`Take` paging computes its offset in C# `int` arithmetic and becomes SQL `OFFSET`/`LIMIT`. PostgreSQL refuses a negative value for either, so the list query throws; the service logs the exception and rethrows it.
- `Revenue` holds the month-count revenue formula and its sum over a property's tenancies.
- `Invariants` closes the service operations into a command language. It proves that every state reachable from the empty database keeps these properties:
  - a tenancy is active or expired only with the tenant's confirmation;
  - every reading runs forward (new index ≥ old index);
  - every invoice's costs and total satisfy the billing equations;
  - every invoice points to a stored reading that starts where the invoice starts.

Clocks become an explicit `now` parameter. Password hashing and verification become function parameters.

## Model

| member | source | states |
|---|---|---|
| TenancyRules.TransitionTableShape | HomerLy.Business/Service/TenancyService.cs:709-720 | Expired and cancelled are final; nothing moves back to pending; pending may go only to active or cancelled, and active only to expired or cancelled |
| TenancyRules.CreateTenancy | HomerLy.Business/Service/TenancyService.cs:36-114 | Each guard, in source order, gives its own error: NotFound for an unknown caller; Forbidden for a non-Owner; NotFound for a missing property; Forbidden for another owner's property; Conflict on an occupied property; NotFound for a missing tenant; BadRequest for a tenant who is not a User; Conflict when an active tenancy exists; BadRequest for an end date not after the start. Success iff every guard passes. Then exactly one new record is added: pending, unconfirmed, owned by the caller, created at `now`, with the request's dates, baseline indices and unit prices, and its contract URL (empty when none). Any failure changes nothing |
| TenancyService.CreateTenancy | HomerLy.Business/Service/TenancyService.cs:36-114 | The method's result and new database equal `TenancyRules.CreateTenancy` on the old database |
| TenancyRules.UpdateTenancy | HomerLy.Business/Service/TenancyService.cs:148-191 | Owner-only; Conflict on active or expired tenancies; dates are checked only when both are supplied. Success iff these pass. Only the supplied fields change, and a blank contract URL keeps the old one. Status, confirmation, baseline indices, parties and audit never change |
| TenancyRules.UpdateCanInvertDates | HomerLy.Business/Service/TenancyService.cs:163-167 | An end date supplied alone, before the stored start date, is accepted and leaves the tenancy ending before it starts |
| TenancyService.UpdateTenancy | HomerLy.Business/Service/TenancyService.cs:148-191 | Computes exactly `TenancyRules.UpdateTenancy` |
| TenancyRules.UpdateTenancyStatus | HomerLy.Business/Service/TenancyService.cs:218-259 | Forbidden unless the caller is the owner; BadRequest for a move not in the transition table, or for activation without the tenant's confirmation; success iff none applies. The status is set. Only the tenancy's property changes, and only in its status: occupied on activation, available on expiry or cancellation |
| TenancyService.UpdateTenancyStatus | HomerLy.Business/Service/TenancyService.cs:218-259 | Computes exactly `TenancyRules.UpdateTenancyStatus` |
| TenancyRules.TenantConfirmTenancy | HomerLy.Business/Service/TenancyService.cs:287-314 | Forbidden unless the caller is the tenant; BadRequest unless the tenancy is pending; Conflict if already confirmed. On success the tenancy is confirmed and active and its property occupied; nothing else changes |
| TenancyRules.ConfirmTwiceFails | HomerLy.Business/Service/TenancyService.cs:292-300 | A second confirmation after a successful one fails with the not-pending BadRequest |
| TenancyService.TenantConfirmTenancy | HomerLy.Business/Service/TenancyService.cs:287-314 | Computes exactly `TenancyRules.TenantConfirmTenancy` |
| TenancyRules.CancelTenancy | HomerLy.Business/Service/TenancyService.cs:548-567 | Owner or tenant may cancel; Conflict on expired or cancelled tenancies. Success iff caller and status allow it; then the tenancy is cancelled and its property set available unconditionally |
| TenancyService.CancelTenancy | HomerLy.Business/Service/TenancyService.cs:548-567 | Computes exactly `TenancyRules.CancelTenancy` |
| TenancyRules.DeleteTenancy | HomerLy.Business/Service/TenancyService.cs:596-607 | Owner-only; Conflict on an active tenancy. Success iff neither applies; then only the soft-delete fields of that tenancy change |
| TenancyService.DeleteTenancy | HomerLy.Business/Service/TenancyService.cs:596-607 | Computes exactly `TenancyRules.DeleteTenancy` |
| TenancyRules.UpdateExpiredTenancies | HomerLy.Business/Service/TenancyService.cs:627-657 | Every live active tenancy whose end date is before `now` becomes expired, and its property available; every other tenancy is unchanged, a property changes only by becoming available, and a property of no due tenancy does not change at all. Returns the number of tenancies changed; when it is 0, nothing changes |
| TenancyRules.UpdateExpiredIdempotent | HomerLy.Business/Service/TenancyService.cs:627-657 | A second sweep at the same instant returns 0 and changes nothing |
| TenancyService.UpdateExpiredTenancies | HomerLy.Business/Service/TenancyService.cs:627-657 | The sweep, with its loop over the matched tenancies, computes exactly `TenancyRules.UpdateExpiredTenancies` |
| TenancyService.ExpireTenancies | HomerLy.Business/Service/TenancyService.cs:639-650 | The loop that marks each due tenancy expired yields exactly `TenancyRules.ExpireAll` of the due set |
| TenancyService.FreeProperties | HomerLy.Business/Service/TenancyService.cs:639-650 | The loop that frees each due tenancy's property yields exactly `TenancyRules.FreeAll` of their properties |
| TenancyRules.MatchingTenancies | HomerLy.Business/Service/TenancyService.cs:380-432 | A tenancy is listed iff it passes every supplied filter (deleted only when asked for) and a caller who is a non-admin account is its owner or tenant |
| TenancyRules.GetTenancies | HomerLy.Business/Service/TenancyService.cs:378-458 | Fails, as a rethrown exception, iff the database refuses the page arguments. Otherwise: total count is the number of matching tenancies. Every item on the page matches and is visible to the caller; items are in non-increasing creation date. Without overflow the page is the slice starting at `(page-1)*size` of the newest-first listing |
| TenancyRules.UnknownCallerSeesAll | HomerLy.Business/Service/TenancyService.cs:427-432 | An id with no account sees the same listing as an admin |
| TenancyService.GetTenancies | HomerLy.Business/Service/TenancyService.cs:378-458 | The step-by-step `Where` chain, ordering and paging compute exactly `TenancyRules.GetTenancies` |
| TenancyService.ApplyFilters | HomerLy.Business/Service/TenancyService.cs:380-424 | The id set after the filter chain is exactly the tenancies passing every supplied filter |
| TenancyService.ApplyKeyFilters | HomerLy.Business/Service/TenancyService.cs:380-404 | Keeps exactly the tenancies matching the deletion flag (non-deleted by default) and the supplied property, tenant and owner |
| TenancyService.ApplyStateFilters | HomerLy.Business/Service/TenancyService.cs:406-414 | Keeps exactly the tenancies with the supplied status and confirmation flag |
| TenancyService.ApplyDateFilters | HomerLy.Business/Service/TenancyService.cs:416-424 | Keeps exactly the tenancies whose start date lies within the supplied bounds, both inclusive |
| TenancyService.ApplyVisibility | HomerLy.Business/Service/TenancyService.cs:427-432 | A non-admin caller keeps exactly the tenancies they own or rent; anyone else keeps all |
| ReadingRules.View | HomerLy.Business/Service/UtilityReadingService.cs:511-531 | The reported usage of each utility is new index minus old index |
| ReadingRules.UsageNonNegative | HomerLy.Business/Service/UtilityReadingService.cs:511-531 | A reading that runs forward reports non-negative usage |
| ReadingRules.StartIndices | HomerLy.Business/Service/UtilityReadingService.cs:60-75 | The old indices of a new reading: the new indices of the newest live reading for the same property and tenancy, or the tenancy's baseline when there is none |
| ReadingRules.CreateReading | HomerLy.Business/Service/UtilityReadingService.cs:34-121 | Each guard gives its own error, in source order: NotFound unless property and tenancy are live; BadRequest when the tenancy belongs to another property; Forbidden unless the caller is owner or tenant; BadRequest naming the utility whose new index is below its start index. Success iff all pass, and then exactly one reading is added: chained from `StartIndices`, running forward, unbilled. No charged reading changes |
| ReadingRules.CreateContinuesChain | HomerLy.Business/Service/UtilityReadingService.cs:60-107 | A reading created no earlier than the chain's others becomes the chain's newest: the next reading starts from its new indices |
| ReadingService.CreateReading | HomerLy.Business/Service/UtilityReadingService.cs:34-121 | Computes exactly `ReadingRules.CreateReading` |
| ReadingService.StartIndices | HomerLy.Business/Service/UtilityReadingService.cs:60-75 | Scans the chain for its newest reading and returns exactly `ReadingRules.StartIndices` |
| ReadingRules.UpdateReading | HomerLy.Business/Service/UtilityReadingService.cs:155-190 | NotFound, then Conflict on a charged reading before the permission check, then NotFound for a missing tenancy, then Forbidden unless owner or tenant, then BadRequest naming the utility (electric first) whose new index is below the stored old index. On success only the new indices and a supplied reading date change; old indices never do |
| ReadingService.UpdateReading | HomerLy.Business/Service/UtilityReadingService.cs:155-190 | Computes exactly `ReadingRules.UpdateReading` |
| ReadingRules.MarkAsCharged | HomerLy.Business/Service/UtilityReadingService.cs:483-493 | NotFound for a missing reading or tenancy; Forbidden unless the owner; Conflict when already charged. Success iff the owner marks an uncharged reading; only `isCharged` changes, to true |
| ReadingRules.ChargeTwiceFails | HomerLy.Business/Service/UtilityReadingService.cs:488-491 | Charging a reading a second time is a Conflict |
| ReadingService.MarkAsCharged | HomerLy.Business/Service/UtilityReadingService.cs:483-493 | Computes exactly `ReadingRules.MarkAsCharged` |
| ReadingRules.DeleteReading | HomerLy.Business/Service/UtilityReadingService.cs:434-450 | NotFound for a missing or deleted reading; Conflict on a charged reading; NotFound when its tenancy is not on record; Forbidden unless the caller owns the tenancy. Success iff none applies; only the soft-delete fields change |
| ReadingRules.TenantCannotDelete | HomerLy.Business/Service/UtilityReadingService.cs:434-450 | A tenant who is not the owner is refused deletion of a reading they are allowed to update |
| ReadingService.DeleteReading | HomerLy.Business/Service/UtilityReadingService.cs:434-450 | Computes exactly `ReadingRules.DeleteReading` |
| ReadingRules.GetReadingById | HomerLy.Business/Service/UtilityReadingService.cs:212-230 | NotFound for a missing or deleted reading, or one whose tenancy is not on record; Forbidden iff the reading's tenancy exists and the caller is neither its owner nor its tenant; otherwise the reading's view |
| ReadingService.GetReadingById | HomerLy.Business/Service/UtilityReadingService.cs:212-230 | Computes exactly `ReadingRules.GetReadingById` |
| ReadingRules.PropertyGate | HomerLy.Business/Service/UtilityReadingService.cs:253-273 | NotFound for a missing or deleted property, or one without a live tenancy; Forbidden when the caller is not a party to the property's first live tenancy, whatever that tenancy's status; admitted otherwise |
| ReadingService.CheckPropertyGate | HomerLy.Business/Service/UtilityReadingService.cs:253-273 | Computes exactly `ReadingRules.PropertyGate` |
| ReadingRules.CurrentTenantMayBeRefused | HomerLy.Business/Service/UtilityReadingService.cs:260-273 | When an older tenancy of the property comes first, the tenant of the current active tenancy is refused the property's readings |
| ReadingRules.ListReadings | HomerLy.Business/Service/UtilityReadingService.cs:294-300 | For page arguments the database accepts: total count is the number of matching readings, at most `size` items, and the items are matching readings in non-increasing reading date, and without overflow the page is the slice at `(page-1)*size` of the newest-first listing |
| ReadingService.ListPage | HomerLy.Business/Service/UtilityReadingService.cs:294-300 | Orders and pages exactly as `ReadingRules.ListReadings` |
| ReadingRules.GetReadingsByProperty | HomerLy.Business/Service/UtilityReadingService.cs:239-310 | The property gate's error when it fails; then a failure iff the database refuses the page arguments. Otherwise it counts the live readings of the property that pass the charged and date filters, and lists only those, at most a page of them, newest reading date first, as the page's slice of the newest-first listing |
| ReadingService.GetReadingsByProperty | HomerLy.Business/Service/UtilityReadingService.cs:239-310 | Computes exactly `ReadingRules.GetReadingsByProperty` |
| ReadingRules.GetReadingsByTenancy | HomerLy.Business/Service/UtilityReadingService.cs:313-374 | NotFound for a missing tenancy; Forbidden iff the caller is not a party; then a failure iff the database refuses the page arguments. Otherwise it counts the tenancy's live readings that pass the filters, and lists only those, at most a page of them, newest reading date first, as the page's slice of the newest-first listing |
| ReadingService.GetReadingsByTenancy | HomerLy.Business/Service/UtilityReadingService.cs:313-374 | Computes exactly `ReadingRules.GetReadingsByTenancy` |
| ReadingService.ApplyFilters | HomerLy.Business/Service/UtilityReadingService.cs:279-292 | Keeps exactly the readings passing the supplied charged and date filters |
| ReadingRules.GetLatestReading | HomerLy.Business/Service/UtilityReadingService.cs:377-413 | Fails iff the property gate fails, with the gate's own error: NotFound for a missing or deleted property or one without a live tenancy, Forbidden for a caller who is not a party; otherwise none iff the property has no live reading, else the newest one |
| ReadingService.GetLatestReading | HomerLy.Business/Service/UtilityReadingService.cs:377-413 | Computes exactly `ReadingRules.GetLatestReading` |
| InvoiceRules.BillingStart | HomerLy.Business/Service/InvoiceService.cs:45-51 | The invoice's old indices: the newest live reading's new indices, or 0 when there is none |
| InvoiceRules.FirstInvoiceIgnoresBaseline | HomerLy.Business/Service/InvoiceService.cs:50-51 | With no reading yet, an invoice bills from 0 while a reading would start from the tenancy's baseline |
| InvoiceService.BillingStart | HomerLy.Business/Service/InvoiceService.cs:45-51 | Returns exactly `InvoiceRules.BillingStart` |
| InvoiceRules.NewInvoice | HomerLy.Business/Service/InvoiceService.cs:65-67 | The invoice built at creation satisfies the billing equations: each cost is usage times unit price, and the total is rent plus costs plus fees |
| InvoiceRules.CreateInvoice | HomerLy.Business/Service/InvoiceService.cs:39-117 | Missing for an absent tenancy or property; Forbidden iff the caller does not own the property; then a failure naming the utility (electric first) whose new index is below its start. On success exactly a new unbilled reading and a `pending` invoice are added. The invoice points to that reading, is created at `now`, and has the request's billing period, due date, new indices, unit prices and fees. Its rent equals the property's current price, and it satisfies the billing equations |
| InvoiceRules.CreatedInvoiceNotDeletable | HomerLy.Business/Service/InvoiceService.cs:102 | A freshly created invoice is pending, so its owner cannot delete it |
| InvoiceService.CreateInvoice | HomerLy.Business/Service/InvoiceService.cs:39-117 | Computes exactly `InvoiceRules.CreateInvoice` |
| InvoiceRules.Recalculated | HomerLy.Business/Service/InvoiceService.cs:258-262 | Recomputing costs and total makes the billing equations hold and changes no other field |
| InvoiceRules.ReadingsAfterUpdate | HomerLy.Business/Service/InvoiceService.cs:265-278 | Only the linked reading changes: when live, it receives the supplied new indices |
| InvoiceService.CopyIndices | HomerLy.Business/Service/InvoiceService.cs:265-278 | Computes exactly `InvoiceRules.ReadingsAfterUpdate` |
| InvoiceRules.UpdateInvoice | HomerLy.Business/Service/InvoiceService.cs:199-278 | Missing, then Forbidden unless the caller is the owner, then not editable outside draft or pending, then the electric-index failure, then the water-index failure, each for a new index below its old one. Success iff all pass. The invoice's old indices, rent, status, parties and reading link never change. The equations hold afterwards whenever they held before or anything was recalculated, and the linked reading receives any supplied new index |
| InvoiceRules.UpdateRewritesChargedReading | HomerLy.Business/Service/InvoiceService.cs:265-272 | Updating an invoice writes a new index into its reading even when that reading is charged, which the reading service itself refuses with a Conflict |
| InvoiceService.UpdateInvoice | HomerLy.Business/Service/InvoiceService.cs:199-278 | The field-by-field assignments under the recalculation flag compute exactly `InvoiceRules.UpdateInvoice` |
| InvoiceService.EditFields | HomerLy.Business/Service/InvoiceService.cs:209-220 | Each supplied billing date, due date and other-fees value replaces the stored one; every other field is kept |
| InvoiceService.EditMeters | HomerLy.Business/Service/InvoiceService.cs:223-255 | Each supplied index is checked against its old index (electric first), then the indices and unit prices are set; the flag says whether any was supplied |
| InvoiceRules.UpdateInvoiceStatus | HomerLy.Business/Service/InvoiceService.cs:299-309 | Any status is set, with no transition check. The payment date is the supplied one; otherwise it is stamped `now` only when moving to paid with no date yet, and is left alone in every other case |
| InvoiceService.UpdateInvoiceStatus | HomerLy.Business/Service/InvoiceService.cs:299-309 | Computes exactly `InvoiceRules.UpdateInvoiceStatus` |
| InvoiceRules.PayInvoice | HomerLy.Business/Service/InvoiceService.cs:378-394 | Forbidden unless the caller is the tenant; fails on paid and on cancelled invoices. Success iff none applies; then status paid and payment date `now`, nothing else |
| InvoiceRules.PayTwiceFails | HomerLy.Business/Service/InvoiceService.cs:383-386 | Paying a second time fails as already paid |
| InvoiceRules.PaidInvoiceCanBeReopened | HomerLy.Business/Service/InvoiceService.cs:299-309 | Because the status setter is unguarded, a paid invoice can be set back to pending and then paid again |
| InvoiceService.PayInvoice | HomerLy.Business/Service/InvoiceService.cs:378-394 | Computes exactly `InvoiceRules.PayInvoice` |
| InvoiceRules.DeleteInvoice | HomerLy.Business/Service/InvoiceService.cs:321-340 | Returns false and changes nothing for a missing or deleted invoice; Forbidden unless the owner; refused outside draft. Returns true iff the owner deletes a draft, and then only its soft-delete fields change |
| InvoiceService.DeleteInvoice | HomerLy.Business/Service/InvoiceService.cs:321-340 | Computes exactly `InvoiceRules.DeleteInvoice` |
| InvoiceRules.UpdateOverdueInvoices | HomerLy.Business/Service/InvoiceService.cs:350-366 | Exactly the live pending invoices due before `now` become overdue; all others are unchanged, and nothing changes when none match |
| InvoiceRules.UpdateOverdueIdempotent | HomerLy.Business/Service/InvoiceService.cs:350-366 | A second sweep at the same instant changes nothing |
| InvoiceService.UpdateOverdueInvoices | HomerLy.Business/Service/InvoiceService.cs:350-366 | The sweep computes exactly `InvoiceRules.UpdateOverdueInvoices` |
| InvoiceService.MarkEach | HomerLy.Business/Service/InvoiceService.cs:356-361 | The loop marking each match overdue yields exactly `InvoiceRules.MarkOverdue` of the matched set |
| PropertyRules.CreateProperty | HomerLy.Business/Service/PropertyService.cs:35-63 | NotFound without a live account; Forbidden unless it is an Owner, and Forbidden for an Owner not yet approved; success iff neither applies. Then exactly one property is added: available, owned by the caller, with the request's fields |
| PropertyService.CreateProperty | HomerLy.Business/Service/PropertyService.cs:35-63 | Computes exactly `PropertyRules.CreateProperty` |
| PropertyRules.UpdateProperty | HomerLy.Business/Service/PropertyService.cs:90-123 | NotFound for a missing or deleted property; Forbidden unless the caller owns it; success iff neither applies. Only supplied (and, for text, non-blank) fields change; status, owner and audit never do |
| PropertyRules.UpdateIdempotent | HomerLy.Business/Service/PropertyService.cs:104-123 | Applying the same successful update twice gives the same result and state as once |
| PropertyService.UpdateProperty | HomerLy.Business/Service/PropertyService.cs:90-123 | Computes exactly `PropertyRules.UpdateProperty` |
| PropertyRules.UpdatePropertyStatus | HomerLy.Business/Service/PropertyService.cs:145-158 | NotFound for a missing or deleted property; Forbidden unless the caller owns it; otherwise sets any status, with no check of tenancies, and changes nothing else |
| PropertyRules.StatusSetterBypassesTenancyGuard | HomerLy.Business/Service/PropertyService.cs:145-158 | With an active tenancy, marking the property available is a Conflict, yet the status setter makes it available and the tenancy stays active |
| PropertyService.UpdatePropertyStatus | HomerLy.Business/Service/PropertyService.cs:145-158 | Computes exactly `PropertyRules.UpdatePropertyStatus` |
| PropertyRules.GetPropertyById | HomerLy.Business/Service/PropertyService.cs:174-194 | Ok iff the property is live, with its stored record; otherwise NotFound |
| PropertyService.GetPropertyById | HomerLy.Business/Service/PropertyService.cs:174-194 | Computes exactly `PropertyRules.GetPropertyById` |
| PropertyService.FindActiveTenancy | HomerLy.Business/Service/PropertyService.cs:329-331 | True iff a live active tenancy of the property exists |
| PropertyRules.DeleteProperty | HomerLy.Business/Service/PropertyService.cs:314-341 | NotFound, then Forbidden unless the owner; Conflict exactly when the property is occupied and has a live active tenancy; otherwise success, soft-deleting the property and nothing else |
| PropertyService.DeleteProperty | HomerLy.Business/Service/PropertyService.cs:314-341 | Computes exactly `PropertyRules.DeleteProperty` |
| PropertyRules.MarkOccupied | HomerLy.Business/Service/PropertyService.cs:361-373 | No ownership check; Conflict iff already occupied; otherwise only the status becomes occupied |
| PropertyRules.MarkOccupiedTwiceFails | HomerLy.Business/Service/PropertyService.cs:366-369 | Marking occupied a second time is a Conflict |
| PropertyService.MarkOccupied | HomerLy.Business/Service/PropertyService.cs:361-373 | Computes exactly `PropertyRules.MarkOccupied` |
| PropertyRules.MarkAvailable | HomerLy.Business/Service/PropertyService.cs:397-420 | Owner-only; Conflict while a live active tenancy exists; otherwise only the status becomes available |
| PropertyRules.MarkAvailableIdempotent | HomerLy.Business/Service/PropertyService.cs:397-420 | Marking available twice gives the same result and state as once |
| PropertyService.MarkAvailable | HomerLy.Business/Service/PropertyService.cs:397-420 | Computes exactly `PropertyRules.MarkAvailable` |
| PropertyRules.MatchingProperties | HomerLy.Business/Service/PropertyService.cs:218-284 | A property is listed iff it passes every supplied filter |
| PropertyRules.DefaultListsLiveProperties | HomerLy.Business/Service/PropertyService.cs:218-225 | With no filters, exactly the live properties are listed |
| PropertyRules.FiltersOnlyNarrow | HomerLy.Business/Service/PropertyService.cs:226-284 | Any filter set lists a subset of what the deletion filter alone lists |
| PropertyRules.GetProperties | HomerLy.Business/Service/PropertyService.cs:218-303 | Fails, as a rethrown exception, iff the database refuses the page arguments. Otherwise: total count is the number of matches. Every item matches, items are in non-increasing creation date, and without overflow the page is the slice at `(page-1)*size` of the newest-first listing |
| PropertyService.GetProperties | HomerLy.Business/Service/PropertyService.cs:218-303 | The step-by-step query computes exactly `PropertyRules.GetProperties` |
| PropertyService.ApplySizeFilters | HomerLy.Business/Service/PropertyService.cs:255-275 | Keeps exactly the properties within the supplied rent and area bounds |
| PropertyService.ApplyKeyFilters | HomerLy.Business/Service/PropertyService.cs:218-236 | Keeps exactly the properties matching the deletion flag (non-deleted by default) and the supplied owner and status |
| PropertyService.ApplyTextFilters | HomerLy.Business/Service/PropertyService.cs:238-252 | Keeps exactly the properties whose title, description or address contains a non-blank search term, and whose address contains a non-blank address term |
| PropertyService.ApplyRangeFilters | HomerLy.Business/Service/PropertyService.cs:254-286 | Keeps exactly the properties within the rent and area bounds and created within the supplied dates, both inclusive |
| ReportRules.CreateReport | HomerLy.Business/Service/PropertyReportService.cs:22-60 | A missing tenancy fails; Forbidden unless the caller is the tenant; then a mismatch failure when the request's property is not the tenancy's, and a missing failure when that property is gone. Success iff all hold; then exactly one report is added, requested by the caller |
| ReportService.CreateReport | HomerLy.Business/Service/PropertyReportService.cs:22-60 | Computes exactly `ReportRules.CreateReport` |
| ReportRules.UpdateReport | HomerLy.Business/Service/PropertyReportService.cs:155-180 | Missing for a missing or deleted report; Forbidden unless the caller is the requester; refused once the report is complete. Success iff none applies; only non-blank title and description and a supplied priority change |
| ReportRules.CompleteFreezesRequester | HomerLy.Business/Service/PropertyReportService.cs:165-168 | After the requester sets priority complete, every further update by them is refused |
| ReportService.UpdateReport | HomerLy.Business/Service/PropertyReportService.cs:155-180 | Computes exactly `ReportRules.UpdateReport` |
| ReportRules.UpdateReportStatus | HomerLy.Business/Service/PropertyReportService.cs:195-213 | Missing for a missing or deleted report or property; Forbidden unless the caller owns the report's property; success iff none applies. The priority is then set unconditionally |
| ReportRules.OwnerReopensFrozenReport | HomerLy.Business/Service/PropertyReportService.cs:195-213 | The owner can reopen a complete report, after which the requester may update it again |
| ReportService.UpdateReportStatus | HomerLy.Business/Service/PropertyReportService.cs:195-213 | Computes exactly `ReportRules.UpdateReportStatus` |
| ReportRules.DeleteReport | HomerLy.Business/Service/PropertyReportService.cs:227-242 | False, with no change, for a missing or deleted report; Forbidden iff the caller is neither requester nor property owner; otherwise soft-deletes it |
| ReportRules.DeleteTwiceIsFalse | HomerLy.Business/Service/PropertyReportService.cs:229-233 | Deleting again returns false and changes nothing |
| ReportService.DeleteReport | HomerLy.Business/Service/PropertyReportService.cs:227-242 | Computes exactly `ReportRules.DeleteReport` |
| ReportRules.GetReportById | HomerLy.Business/Service/PropertyReportService.cs:68-78 | A report is returned iff it is live |
| ReportService.GetReportById | HomerLy.Business/Service/PropertyReportService.cs:68-78 | Computes exactly `ReportRules.GetReportById` |
| ReportRules.GetReportsByOwner | HomerLy.Business/Service/PropertyReportService.cs:83-92 | Every live report on one of the owner's live properties, each once, and nothing else, newest first |
| ReportRules.OwnerListIsUnionOfPropertyLists | HomerLy.Business/Service/PropertyReportService.cs:83-92 | The owner's reports are exactly the union of the by-property lists of the owner's live properties |
| ReportService.GetReportsByOwner | HomerLy.Business/Service/PropertyReportService.cs:83-92 | Computes exactly `ReportRules.GetReportsByOwner` |
| ReportRules.GetReportsWhere | HomerLy.Business/Service/PropertyReportService.cs:105-107 | Every live report whose key matches, each once, and nothing else, newest first |
| ReportService.GetReportsByTenant | HomerLy.Business/Service/PropertyReportService.cs:105-107 | The requester's live reports, as `ReportRules.GetReportsWhere` |
| ReportService.GetReportsByProperty | HomerLy.Business/Service/PropertyReportService.cs:121-123 | The property's live reports, as `ReportRules.GetReportsWhere` |
| ReportService.GetReportsByTenancy | HomerLy.Business/Service/PropertyReportService.cs:137-140 | The tenancy's live reports, as `ReportRules.GetReportsWhere` |
| ReportService.ListWhere | HomerLy.Business/Service/PropertyReportService.cs:105-107 | The reports selected by the key, in the order of `Query.Listing`: newest creation first, each once |
| AccountRules.ParseRole | HomerLy.Business/Service/AccountService.cs:271-275 | A role parsed from text is the one whose name matches, ignoring case |
| AccountRules.ParseRoleExact | HomerLy.Business/Service/AccountService.cs:271-275 | Parsing yields a role iff the text is its name up to case |
| AccountRules.ParseLowerCaseName | HomerLy.Business/Service/AccountService.cs:271-275 | Each role's lower-case name parses to that role |
| AccountRules.GetAccountById | HomerLy.Business/Service/AccountService.cs:23-44 | Ok iff the account is live, with its stored record; otherwise NotFound |
| AccountService.GetAccountById | HomerLy.Business/Service/AccountService.cs:23-44 | Computes exactly `AccountRules.GetAccountById` |
| AccountRules.UpdateAccount | HomerLy.Business/Service/AccountService.cs:137-167 | Forbidden unless callers update their own account; NotFound for a missing one; BadRequest when both passwords are given and the current one does not verify. On success name and phone are always set, and the hash changes only when both passwords are given; nothing else changes |
| AccountRules.ChangedPasswordVerifies | HomerLy.Business/Service/AccountService.cs:152-160 | After a password change, the new password verifies against the stored hash, for a hasher whose verification accepts its own hashes |
| AccountService.UpdateAccount | HomerLy.Business/Service/AccountService.cs:137-167 | Computes exactly `AccountRules.UpdateAccount` |
| AccountRules.DeleteAccount | HomerLy.Business/Service/AccountService.cs:192-202 | NotFound only for a missing account; BadRequest when already deleted; otherwise only the soft-delete fields change |
| AccountService.DeleteAccount | HomerLy.Business/Service/AccountService.cs:192-202 | Computes exactly `AccountRules.DeleteAccount` |
| AccountRules.RestoreAccount | HomerLy.Business/Service/AccountService.cs:223-235 | NotFound for a missing account; BadRequest when it is not deleted; otherwise the deletion flag, date and actor are cleared |
| AccountRules.RestoreUndoesDelete | HomerLy.Business/Service/AccountService.cs:192-235 | Delete followed by restore gives back the original database |
| AccountService.RestoreAccount | HomerLy.Business/Service/AccountService.cs:223-235 | Computes exactly `AccountRules.RestoreAccount` |
| AccountRules.ChangeAccountRole | HomerLy.Business/Service/AccountService.cs:271-289 | BadRequest for an unparseable role, checked first; NotFound for a missing or deleted account; otherwise the role is set, and becoming Owner resets approval |
| AccountService.ChangeAccountRole | HomerLy.Business/Service/AccountService.cs:271-289 | Computes exactly `AccountRules.ChangeAccountRole` |
| AccountRules.ApproveOwnerAccount | HomerLy.Business/Service/AccountService.cs:312-322 | NotFound for a missing account; BadRequest unless it is an Owner; otherwise only the approval flag becomes true |
| AccountRules.ReassigningOwnerRevokesApproval | HomerLy.Business/Service/AccountService.cs:283-286 | Setting an approved Owner's role to Owner again withdraws the approval |
| AccountService.ApproveOwnerAccount | HomerLy.Business/Service/AccountService.cs:312-322 | Computes exactly `AccountRules.ApproveOwnerAccount` |
| AccountRules.MatchingAccounts | HomerLy.Business/Service/AccountService.cs:63-103 | An account is listed iff it passes every supplied filter (search term on name, email, phone and identity number) |
| AccountRules.DefaultListsLiveAccounts | HomerLy.Business/Service/AccountService.cs:63-103 | With no filters exactly the live accounts are listed, and other filters only narrow that |
| AccountRules.GetAccounts | HomerLy.Business/Service/AccountService.cs:46-123 | Fails, as a rethrown exception, iff the database refuses the page arguments. Otherwise: total count is the number of matches. Every item matches, items are in non-increasing creation date, and without overflow the page is the slice at `(page-1)*size` of the newest-first listing |
| AccountService.GetAccounts | HomerLy.Business/Service/AccountService.cs:46-123 | The step-by-step query computes exactly `AccountRules.GetAccounts` |
| AccountService.ApplyKeyFilters | HomerLy.Business/Service/AccountService.cs:63-86 | Keeps exactly the accounts matching the deletion flag (non-deleted by default), a non-blank search term and the supplied role |
| AccountService.ApplyRangeFilters | HomerLy.Business/Service/AccountService.cs:88-104 | Keeps exactly the accounts with the supplied approval flag and created within the supplied dates, both inclusive |
| AuthRules.LiveWithEmail | HomerLy.Business/Service/AuthService.cs:146-150 | Exactly the non-deleted accounts with the email |
| AuthService.AccountExists | HomerLy.Business/Service/AuthService.cs:146-150 | True iff a non-deleted account has the email |
| AuthRules.NewAccount | HomerLy.Business/Service/AuthService.cs:108-117 | A registered account has role User and is not approved, whatever the request says; name, email, phone and identity number are copied, and the password is stored hashed |
| AuthRules.Register | HomerLy.Business/Service/AuthService.cs:100-117 | Conflict iff a live account holds the email, with no change; otherwise exactly one new account, from `NewAccount` |
| AuthService.Register | HomerLy.Business/Service/AuthService.cs:100-117 | Computes exactly `AuthRules.Register` |
| AuthRules.Login | HomerLy.Business/Service/AuthService.cs:30-49 | BadRequest for a blank email or password; NotFound when no live account has the email; Unauthorized when the password does not verify against the account found. Otherwise the account found, which is live and has that email |
| AuthService.Login | HomerLy.Business/Service/AuthService.cs:30-49 | Computes exactly `AuthRules.Login` |
| AuthRules.RegisterKeepsEmailsUnique | HomerLy.Business/Service/AuthService.cs:100-104 | Registration keeps live emails unique |
| AuthRules.RegisterTwiceConflicts | HomerLy.Business/Service/AuthService.cs:100-104 | Registering the same email again is a Conflict that adds nothing |
| AuthRules.RegisterThenLogin | HomerLy.Business/Service/AuthService.cs:36-49 | A freshly registered account logs in with its password and is the account found |
| AuthRules.LoginFindsTheAccount | HomerLy.Business/Service/AuthService.cs:36-49 | While live emails are unique, login finds the one account with the email and succeeds iff its password verifies |
| AuthRules.RestoreCanDuplicateEmail | HomerLy.Business/Service/AccountService.cs:223-235 | Register, delete, register again with the same email and restore: two live accounts then share the email, because restore does not check it |
| Revenue.MonthsBilled | HomerLy.Presentation/Pages/Owner/Properties/Details.cshtml.cs:124-125 | At least one month, never less than the calendar-month difference, and equal to that difference whenever it is at least one |
| Revenue.AtLeastOneMonth | HomerLy.Presentation/Pages/Owner/Properties/Details.cshtml.cs:122-127 | For a non-negative price, a tenancy earns at least one month's price, and always a whole number (≥ 1) of months' prices |
| Revenue.DayIgnored | HomerLy.Presentation/Pages/Owner/Properties/Details.cshtml.cs:124 | Only the year and month of the dates affect the revenue |
| Revenue.NotLaterMonthIsOneMonth | HomerLy.Presentation/Pages/Owner/Properties/Details.cshtml.cs:124-125 | An end in no later calendar month than the start, even one before it, earns exactly one month's price |
| Revenue.EachFurtherMonthAddsOnePrice | HomerLy.Presentation/Pages/Owner/Properties/Details.cshtml.cs:124-126 | Past the first month, each further end month adds exactly one month's price |
| Revenue.NoneEarning | HomerLy.Presentation/Pages/Owner/Properties/Details.cshtml.cs:75-77 | No listed tenancy earns exactly when none is active or expired |
| Revenue.CountEarningCounts | HomerLy.Presentation/Pages/Owner/Properties/Details.cshtml.cs:75-77 | The count of earning tenancies is the number of listed positions holding an active or expired tenancy |
| Revenue.TotalRevenue | HomerLy.Presentation/Pages/Owner/Properties/Details.cshtml.cs:75-77 | For a non-negative price the total is at least one price per active or expired tenancy; with none of those it is 0 |
| Revenue.TotalRevenueAppend | HomerLy.Presentation/Pages/Owner/Properties/Details.cshtml.cs:75-77 | The total over two lists joined is the sum of their totals |
| Revenue.AddingATenancy | HomerLy.Presentation/Pages/Owner/Properties/Details.cshtml.cs:75-77 | A pending or cancelled tenancy adds nothing; an active or expired one adds its own revenue |
| Query.ListNewestFirst | HomerLy.Business/Service/TenancyService.cs:434 | The ordering loop returns exactly the newest-first listing: every row once, strictly newest first, ties broken by id |
| Query.Newest | HomerLy.Business/Service/UtilityReadingService.cs:403-406 | A single scan finds the row that comes first in newest-first order |
| Query.NewestOf | HomerLy.Business/Service/UtilityReadingService.cs:403-406 | `FirstOrDefault` after the ordering is none iff no row matches, else the newest row |
| Query.FindLeast | HomerLy.Business/Service/UtilityReadingService.cs:260-262 | The scan returns the smallest id, or none for an empty query |
| Query.Page | HomerLy.Business/Service/TenancyService.cs:437-440 | For page arguments the database accepts, a page holds at most `size` rows and at most the listing's, only rows of the listing, and nothing for size 0 |
| Query.PageRejectedWhen | HomerLy.Business/Service/TenancyService.cs:437-440 | A negative size, or a page number below 1 with a positive size, is refused; page numbers from 1 with a non-negative size are accepted while the offset fits in an `int` |
| Query.PageLocates | HomerLy.Business/Service/TenancyService.cs:437-440 | Without overflow, row `i` of the listing is row `i % size` of page `i / size + 1`, and no page exceeds its size |
| Query.FirstPageOfMaxSizeIsAll | HomerLy.Presentation/Pages/Owner/Properties/Details.cshtml.cs:64-68 | Page 1 of size `int.MaxValue` is the whole listing |
| Query.Wrap32 | HomerLy.Business/Service/TenancyService.cs:438 | The skip count wraps like C# `int`: congruent modulo 2^32, in range, and unchanged when it fits |
| Invariants.TenancyCommandPreservesInv | HomerLy.Business/Service/TenancyService.cs:229-235 | Every tenancy operation keeps the invariant: active or expired only when confirmed, pending only when unconfirmed |
| Invariants.ReadingCommandPreservesInv | HomerLy.Business/Service/UtilityReadingService.cs:79-121 | Every reading operation keeps every reading running forward, with its start indices fixed |
| Invariants.InvoiceCommandPreservesInv | HomerLy.Business/Service/InvoiceService.cs:258-262 | Every invoice operation keeps every invoice balanced and linked to a reading with the same start indices |
| Invariants.ApplyPreservesInv | HomerLy.Business/Service/TenancyService.cs:36-114 | Every modelled operation of every service keeps the invariant |
| Invariants.RunPreservesInv | HomerLy.Business/Service/InvoiceService.cs:39-117 | Any sequence of operations keeps the invariant |
| Invariants.ReachableSatisfiesInv | HomerLy.Business/Service/InvoiceService.cs:65-67 | Every database reachable from the empty one satisfies the invariant |
| Invariants.ReachableUsageNonNegative | HomerLy.Business/Service/UtilityReadingService.cs:511-531 | In every reachable database, every stored reading reports non-negative usage |
| Invariants.ReachableInvoicesBalance | HomerLy.Business/Service/InvoiceService.cs:258-262 | In every reachable database, every invoice's costs and total satisfy the billing equations, and it points to a stored reading with the same old indices |
| Invariants.ReachableTenanciesConfirmed | HomerLy.Business/Service/TenancyService.cs:229-235 | In every reachable database, no tenancy is active or expired without the tenant's confirmation, and none is pending with it |

## Left out

- PaymentService, ChatService and the chat hub: checkout and webhooks go through an external payment provider, and chat is messaging over a socket hub.
- The Razor page handlers are not modelled, except the revenue computation of the property details page. The dashboard pages, the admin tenancy page that writes tenancies directly, and the progress and days-remaining figures are left out: they are UI code, and the last two read the wall clock and use floating point.
- Token generation, Logout, dependency injection, seeding and logging: these are I/O or configuration.
- `decimal` amounts (rents, unit prices, fees, costs, totals, revenue) are modelled as unbounded integers. Fractional amounts, and `decimal`'s 28-digit precision and overflow, are not represented: only whole-unit amounts are modelled exactly.
- Password hashing and verification are parameters (`hash`, `verify`), not an algorithm.
- Ids are natural numbers drawn from a counter, not GUIDs.
- The `UpdatedAt`, `UpdatedBy` and `CreatedBy` audit fields are not modelled.
- The response DTOs are not modelled. The model returns the stored records (readings with their usage), without the names the DTO mapping joins in.
- Revenue.CalculateTenancyRevenue: carries no contract of its own. Its properties are the lemmas `AtLeastOneMonth`, `DayIgnored`, `NotLaterMonthIsOneMonth` and `EachFurtherMonthAddsOnePrice`.
- Revenue.TotalRevenue: takes the tenancy list and price as parameters. In the source they come from `GetTenanciesAsync` with page size `int.MaxValue` (see `Query.FirstPageOfMaxSizeIsAll`) and from the loaded property.
- Revenue.TotalRevenue: its own contract gives a lower bound and the empty case; the exact sum is stated by `TotalRevenueAppend` and `AddingATenancy`.
- `FirstOrDefault` without an ordering is modelled as the smallest id; the database may return any match. Ties in `OrderByDescending` are modelled as larger id first.
- `Contains` in the search filters is ordinal substring search, with no culture-aware comparison.
- AccountRules.ParseRole: accepts only the role names ignoring case. It leaves out the forms `Enum.TryParse` also accepts: numeric strings, surrounding white space, and comma-separated lists of names combined as flags.
- A null identity number is modelled as the empty string. The registration request carries it as a field, whereas in the source the service reads it from a DTO that does not declare it.
- The invoice read paths (`GetInvoiceByIdAsync`, by owner, by tenant, by tenancy) are plain filters and are not modelled. Neither are the tenancy readers other than `GetTenanciesAsync`: by id, the active tenancy of a property, by tenant and by owner.
- The single rent field stands for both names the source uses for it; the separate `Price` field is dropped.
- Report priorities other than `Complete` are modelled as `Open(rank)`.
- Nothing here proves "at most one active tenancy per property", or "occupied iff an active tenancy exists". The source does not maintain either (`PropertyRules.StatusSetterBypassesTenancyGuard` shows one way it breaks).
