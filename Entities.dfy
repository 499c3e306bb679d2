/** The stored records of the rental domain (the EF Core entity classes) and
    their status enumerations. Money (C# decimal) is an exact `int`; meter
    indices are `int` as in the source. */
module Entities {
  import opened Core

  datatype Role = Admin | Owner | User

  datatype PropertyStatus = Available | Occupied

  /** Both status enumerations have a `Cancelled` member; write it qualified. */
  datatype TenancyStatus = PendingConfirmation | Active | Expired | Cancelled

  datatype InvoiceStatus = Draft | Pending | Paid | Overdue | Cancelled

  /** PriorityStatus of a report. Only `Complete` is named by the services;
      the enumeration's other members are `Open` with a rank. */
  datatype Priority = Complete | Open(rank: nat)

  datatype Account = Account(
    audit: Audit,
    email: string,
    passwordHash: string,
    role: Role,
    fullName: string,
    phoneNumber: string,
    cccdNumber: string,
    isOwnerApproved: bool)

  /** `monthlyPrice` is the one rent field (MonthlyPrice / MonthlyRent). */
  datatype Property = Property(
    audit: Audit,
    ownerId: Id,
    title: string,
    description: string,
    address: string,
    monthlyPrice: int,
    areaSqm: int,
    status: PropertyStatus,
    imageUrl: string)

  /** `electricOldIndex`/`waterOldIndex` are the baseline meter indices taken
      when the lease starts. */
  datatype Tenancy = Tenancy(
    audit: Audit,
    propertyId: Id,
    tenantId: Id,
    ownerId: Id,
    startDate: DateTime,
    endDate: DateTime,
    contractUrl: string,
    status: TenancyStatus,
    isTenantConfirmed: bool,
    electricUnitPrice: int,
    waterUnitPrice: int,
    electricOldIndex: int,
    waterOldIndex: int)

  datatype UtilityReading = UtilityReading(
    audit: Audit,
    propertyId: Id,
    tenancyId: Id,
    readingDate: DateTime,
    electricOldIndex: int,
    electricNewIndex: int,
    waterOldIndex: int,
    waterNewIndex: int,
    isCharged: bool,
    createdById: Id)

  datatype Invoice = Invoice(
    audit: Audit,
    propertyId: Id,
    tenancyId: Id,
    tenantId: Id,
    ownerId: Id,
    utilityReadingId: Id,
    billingPeriodStart: DateTime,
    billingPeriodEnd: DateTime,
    dueDate: DateTime,
    status: InvoiceStatus,
    paymentDate: Option<DateTime>,
    monthlyRentPrice: int,
    electricOldIndex: int,
    electricNewIndex: int,
    electricUnitPrice: int,
    electricCost: int,
    waterOldIndex: int,
    waterNewIndex: int,
    waterUnitPrice: int,
    waterCost: int,
    otherFees: int,
    totalAmount: int)

  datatype PropertyReport = PropertyReport(
    audit: Audit,
    propertyId: Id,
    tenancyId: Id,
    requestedById: Id,
    title: string,
    description: string,
    priority: Priority)

  datatype Payment = Payment(
    audit: Audit,
    propertyId: Id,
    tenancyId: Id,
    payerId: Id,
    amount: int,
    paymentFor: string,
    paymentDate: DateTime,
    paymentMethod: string,
    isPaid: bool)

  /** The cost of one utility: units consumed times the unit price. */
  function UtilityCost(oldIndex: int, newIndex: int, unitPrice: int): int
  {
    (newIndex - oldIndex) * unitPrice
  }

  /** The billing equations every invoice is meant to satisfy. */
  predicate BillingConsistent(i: Invoice)
  {
    i.electricCost == UtilityCost(i.electricOldIndex, i.electricNewIndex, i.electricUnitPrice) &&
    i.waterCost == UtilityCost(i.waterOldIndex, i.waterNewIndex, i.waterUnitPrice) &&
    i.totalAmount == i.monthlyRentPrice + i.electricCost + i.waterCost + i.otherFees
  }
}
