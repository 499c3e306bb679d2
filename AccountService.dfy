/** The account-administration operations over the unit of work, each proved
    to compute the outcome `AccountRules` gives it. */
module AccountService {
  import opened Core
  import opened Entities
  import opened Store
  import opened Query
  import AccountRules

  method GetAccountById(db: UnitOfWork, accountId: Id) returns (r: Result<Account>)
    ensures r == AccountRules.GetAccountById(db.Snapshot(), accountId)
  {
    if accountId !in db.accounts || db.accounts[accountId].audit.isDeleted {
      return Err(NotFound);
    }
    r := Ok(db.accounts[accountId]);
  }

  /** Name and phone are assigned first; a failed password check returns
      before anything is saved. */
  method UpdateAccount(db: UnitOfWork, accountId: Id, currentUserId: Id, req: AccountRules.UpdateAccountRequest,
                       hash: string -> string, verify: (string, string) -> bool)
    returns (r: Result<Account>)
    modifies db
    ensures Outcome(r, db.Snapshot()) == AccountRules.UpdateAccount(old(db.Snapshot()), accountId, currentUserId, req, hash, verify)
  {
    if accountId != currentUserId {
      return Err(Forbidden);
    }
    if accountId !in db.accounts || db.accounts[accountId].audit.isDeleted {
      return Err(NotFound);
    }
    var account := db.accounts[accountId];
    var storedHash := account.passwordHash;
    account := account.(fullName := req.fullName, phoneNumber := req.phone);
    if !Blank(req.currentPassword) && !Blank(req.newPassword) {
      if !verify(req.currentPassword.value, storedHash) {
        return Err(BadRequest(WrongPassword));
      }
      account := account.(passwordHash := hash(req.newPassword.value));
    }
    db.accounts := db.accounts[accountId := account];
    r := Ok(account);
  }

  method DeleteAccount(db: UnitOfWork, now: DateTime, accountId: Id, actor: Id) returns (r: Result<bool>)
    modifies db
    ensures Outcome(r, db.Snapshot()) == AccountRules.DeleteAccount(old(db.Snapshot()), now, accountId, actor)
  {
    if accountId !in db.accounts {
      return Err(NotFound);
    }
    var account := db.accounts[accountId];
    if account.audit.isDeleted {
      return Err(BadRequest(AlreadyDeleted));
    }
    db.accounts := db.accounts[accountId := account.(audit := SoftRemoved(account.audit, now, actor))];
    r := Ok(true);
  }

  method RestoreAccount(db: UnitOfWork, accountId: Id) returns (r: Result<bool>)
    modifies db
    ensures Outcome(r, db.Snapshot()) == AccountRules.RestoreAccount(old(db.Snapshot()), accountId)
  {
    if accountId !in db.accounts {
      return Err(NotFound);
    }
    var account := db.accounts[accountId];
    if !account.audit.isDeleted {
      return Err(BadRequest(NotDeleted));
    }
    var audit := account.audit.(isDeleted := false, deletedAt := None, deletedBy := None);
    db.accounts := db.accounts[accountId := account.(audit := audit)];
    r := Ok(true);
  }

  method ChangeAccountRole(db: UnitOfWork, accountId: Id, newRole: string) returns (r: Result<bool>)
    modifies db
    ensures Outcome(r, db.Snapshot()) == AccountRules.ChangeAccountRole(old(db.Snapshot()), accountId, newRole)
  {
    var parsed := AccountRules.ParseRole(newRole);
    if parsed.None? {
      return Err(BadRequest(InvalidRole));
    }
    if accountId !in db.accounts || db.accounts[accountId].audit.isDeleted {
      return Err(NotFound);
    }
    var account := db.accounts[accountId];
    account := account.(role := parsed.value);
    if parsed.value == Owner {
      account := account.(isOwnerApproved := false);
    }
    db.accounts := db.accounts[accountId := account];
    r := Ok(true);
  }

  method ApproveOwnerAccount(db: UnitOfWork, accountId: Id) returns (r: Result<bool>)
    modifies db
    ensures Outcome(r, db.Snapshot()) == AccountRules.ApproveOwnerAccount(old(db.Snapshot()), accountId)
  {
    if accountId !in db.accounts || db.accounts[accountId].audit.isDeleted {
      return Err(NotFound);
    }
    var account := db.accounts[accountId];
    if account.role != Owner {
      return Err(BadRequest(NotOwnerRole));
    }
    db.accounts := db.accounts[accountId := account.(isOwnerApproved := true)];
    r := Ok(true);
  }

  method GetAccounts(db: UnitOfWork, pageNumber: int, pageSize: int, f: AccountRules.AccountFilter)
    returns (r: Result<Pagination<Account>>)
    ensures r == AccountRules.GetAccounts(db.Snapshot(), pageNumber, pageSize, f)
  {
    var m := db.accounts;
    var query := ApplyKeyFilters(m, f);
    query := ApplyRangeFilters(m, query, f);
    assert query == AccountRules.MatchingAccounts(m, f);
    var ordered := ListNewestFirst(m, query, AccountRules.AccountCreatedAt);
    if PageRejected(pageNumber, pageSize) {
      return Err(Failure(NegativePaging));
    }
    var page := Page(ordered, pageNumber, pageSize);
    r := Ok(Pagination(Rows(m, page), |query|, pageNumber, pageSize));
  }

  /** The deletion flag, then the search term and the role. */
  method ApplyKeyFilters(m: map<Id, Account>, f: AccountRules.AccountFilter) returns (query: set<Id>)
    ensures query <= m.Keys
    ensures forall k :: k in query <==> (k in m &&
      (if f.isDeleted.Some? then m[k].audit.isDeleted == f.isDeleted.value else !m[k].audit.isDeleted) &&
      (!Blank(f.searchTerm) ==> AccountRules.MatchesSearch(m[k], f.searchTerm.value)) &&
      (f.role.Some? ==> m[k].role == f.role.value))
  {
    query := if f.isDeleted.Some? then set k | k in m && m[k].audit.isDeleted == f.isDeleted.value
             else set k | k in m && !m[k].audit.isDeleted;
    if !Blank(f.searchTerm) {
      query := set k | k in query && AccountRules.MatchesSearch(m[k], f.searchTerm.value);
    }
    if f.role.Some? {
      query := set k | k in query && m[k].role == f.role.value;
    }
  }

  /** The approval flag, then the inclusive creation-date bounds. */
  method ApplyRangeFilters(m: map<Id, Account>, base: set<Id>, f: AccountRules.AccountFilter) returns (query: set<Id>)
    requires base <= m.Keys
    ensures forall k :: k in query <==> (k in base &&
      (f.isOwnerApproved.Some? ==> m[k].isOwnerApproved == f.isOwnerApproved.value) &&
      (f.createdFrom.Some? ==> !Before(m[k].audit.createdAt, f.createdFrom.value)) &&
      (f.createdTo.Some? ==> !Before(f.createdTo.value, m[k].audit.createdAt)))
  {
    query := base;
    if f.isOwnerApproved.Some? {
      query := set k | k in query && m[k].isOwnerApproved == f.isOwnerApproved.value;
    }
    if f.createdFrom.Some? {
      query := set k | k in query && !Before(m[k].audit.createdAt, f.createdFrom.value);
    }
    if f.createdTo.Some? {
      query := set k | k in query && !Before(f.createdTo.value, m[k].audit.createdAt);
    }
  }
}
