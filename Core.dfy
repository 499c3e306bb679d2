/** Shared vocabulary of the rental back end: identifiers, instants, the error
    taxonomy of the services, the soft-delete/audit part every stored record
    carries, and the few string tests the services use. */
module Core {

  /** Record identifiers (a Guid in the source); only equality and freshness matter. */
  type Id = nat

  datatype Option<+T> = None | Some(value: T)

  /** The supplied value of an optional request field, or the stored one. */
  function OrElse<T>(o: Option<T>, d: T): (r: T)
    ensures o.Some? ==> r == o.value
    ensures o.None? ==> r == d
  {
    if o.Some? then o.value else d
  }

  /** Why a BadRequest, Conflict or plain-exception failure was raised; the
      source only carries this in the message text. */
  datatype Cause =
    | Missing            // a record looked up by id is absent or deleted
    | TenantRole         // the tenant account does not hold the User role
    | DateOrder          // end date not after start date
    | Transition         // a move the tenancy status table does not allow
    | NotConfirmed       // activation before the tenant confirmed
    | NotPending         // confirmation of a tenancy that is not pending
    | PropertyMismatch   // tenancy and requested property disagree
    | ElectricIndex      // electric new index below the old index
    | WaterIndex         // water new index below the old index
    | NotEditable        // record is in a status that forbids the change
    | AlreadyPaid
    | InvoiceCancelled
    | ReportComplete
    | WrongPassword
    | AlreadyDeleted
    | NotDeleted
    | InvalidRole
    | NotOwnerRole
    | MissingCredentials
    | NegativePaging     // the database refused a negative OFFSET or LIMIT

  /** The error kinds of the services. `Failure` stands for a plain
      `Exception`, which the invoice and report services throw. */
  datatype Error =
    | NotFound
    | Forbidden
    | BadRequest(cause: Cause)
    | Conflict
    | Unauthorized
    | Failure(cause: Cause)

  datatype Result<+T> = Ok(value: T) | Err(error: Error)

  /** A calendar instant (DateTime in the source), ordered lexicographically.
      `tick` is the time of day. */
  datatype DateTime = DateTime(year: int, month: int, day: int, tick: int)

  /** `a` is strictly earlier than `b`. */
  predicate Before(a: DateTime, b: DateTime)
  {
    a.year < b.year ||
    (a.year == b.year && (a.month < b.month ||
    (a.month == b.month && (a.day < b.day ||
    (a.day == b.day && a.tick < b.tick)))))
  }

  lemma BeforeIsStrictTotalOrder(a: DateTime, b: DateTime, c: DateTime)
    ensures !Before(a, a)
    ensures Before(a, b) && Before(b, c) ==> Before(a, c)
    ensures a == b || Before(a, b) || Before(b, a)
    ensures !(Before(a, b) && Before(b, a))
  {
  }

  /** BaseEntity: the soft-delete flag and the audit stamps the model keeps. */
  datatype Audit = Audit(isDeleted: bool, createdAt: DateTime,
                         deletedAt: Option<DateTime>, deletedBy: Option<Id>)

  /** The stamps AddAsync gives a new record. */
  function Inserted(now: DateTime): (a: Audit)
    ensures !a.isDeleted && a.createdAt == now && a.deletedAt == None && a.deletedBy == None
  {
    Audit(false, now, None, None)
  }

  /** SoftRemove: the record stays, flagged deleted and stamped. */
  function SoftRemoved(a: Audit, now: DateTime, actor: Id): (r: Audit)
    ensures r.isDeleted && r.createdAt == a.createdAt
    ensures r.deletedAt == Some(now) && r.deletedBy == Some(actor)
  {
    a.(isDeleted := true, deletedAt := Some(now), deletedBy := Some(actor))
  }

  /** The characters the model treats as white space. */
  predicate IsWhiteSpace(c: char)
  {
    c == ' ' || c == '\t' || c == '\n' || c == '\r' || c == '\U{000C}' || c == '\U{000B}'
  }

  /** string.IsNullOrWhiteSpace */
  predicate Blank(s: Option<string>)
  {
    s.None? || forall i :: 0 <= i < |s.value| ==> IsWhiteSpace(s.value[i])
  }

  /** string.Contains: `needle` occurs in `hay` as a contiguous run. */
  predicate Contains(hay: string, needle: string)
  {
    exists i :: 0 <= i <= |hay| && OccursAt(hay, needle, i)
  }

  predicate OccursAt(hay: string, needle: string, i: int)
  {
    0 <= i && i + |needle| <= |hay| && hay[i..i + |needle|] == needle
  }
}
