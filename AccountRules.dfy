/** What each account-administration operation does to the database. The
    password hasher is not part of the model: its `hash` and `verify`
    functions are parameters, and the contracts hold for every choice of them. */
module AccountRules {
  import opened Core
  import opened Entities
  import opened Store
  import opened Query

  /** ASCII upper case to lower case; every other character is unchanged. */
  function Lower(c: char): (d: char)
    ensures 'A' <= c <= 'Z' ==> d as int == c as int + 32
    ensures !('A' <= c <= 'Z') ==> d == c
  {
    if 'A' <= c <= 'Z' then (c as int + 32) as char else c
  }

  /** Equal strings up to the case of their ASCII letters. */
  predicate SameIgnoringCase(a: string, b: string)
  {
    |a| == |b| && forall i :: 0 <= i < |a| ==> Lower(a[i]) == Lower(b[i])
  }

  /** The member names of the role enumeration. */
  function RoleName(r: Role): string
  {
    match r
    case Admin => "Admin"
    case Owner => "Owner"
    case User => "User"
  }

  /** `Enum.TryParse` with `ignoreCase`, on member names. */
  function ParseRole(s: string): (r: Option<Role>)
    ensures r.Some? ==> SameIgnoringCase(s, RoleName(r.value))
  {
    if SameIgnoringCase(s, "Admin") then Some(Admin)
    else if SameIgnoringCase(s, "Owner") then Some(Owner)
    else if SameIgnoringCase(s, "User") then Some(User)
    else None
  }

  /** A string parses to a role exactly when it spells that role's name in
      any mix of cases; the three names are distinct even ignoring case. */
  lemma ParseRoleExact(s: string, role: Role)
    ensures ParseRole(s) == Some(role) <==> SameIgnoringCase(s, RoleName(role))
  {
    if SameIgnoringCase(s, RoleName(role)) {
      match role
      case Admin =>
      case Owner =>
        assert Lower(s[0]) == 'o';
        assert !SameIgnoringCase(s, "Admin");
      case User =>
        assert |s| == 4;
    }
  }

  /** Every role name, written in lower case, parses back to the role. */
  lemma ParseLowerCaseName(role: Role)
    ensures ParseRole(match role case Admin => "admin" case Owner => "owner" case User => "user") == Some(role)
  {
    var s := match role case Admin => "admin" case Owner => "owner" case User => "user";
    assert SameIgnoringCase(s, RoleName(role));
    ParseRoleExact(s, role);
  }

  function GetAccountById(st: State, accountId: Id): (r: Result<Account>)
    ensures r.Ok? <==> st.LiveAccount(accountId)
    ensures r.Ok? ==> r.value == st.accounts[accountId]
    ensures r.Err? ==> r.error == NotFound
  {
    if !st.LiveAccount(accountId) then Err(NotFound) else Ok(st.accounts[accountId])
  }

  datatype UpdateAccountRequest = UpdateAccountRequest(
    fullName: string,
    phone: string,
    currentPassword: Option<string>,
    newPassword: Option<string>)

  /** A password change is asked for when both passwords are given. */
  predicate ChangesPassword(req: UpdateAccountRequest)
  {
    !Blank(req.currentPassword) && !Blank(req.newPassword)
  }

  /** Name and phone are always overwritten; the hash is replaced only by a
      verified password change. A wrong current password commits nothing,
      not even the name and phone assigned before the check. */
  function UpdateAccount(st: State, accountId: Id, currentUserId: Id, req: UpdateAccountRequest,
                         hash: string -> string, verify: (string, string) -> bool): (o: Outcome<Account>)
    ensures o.result.Err? ==> o.post == st
    ensures accountId != currentUserId ==> o.result == Err(Forbidden)
    ensures accountId == currentUserId && !st.LiveAccount(accountId) ==> o.result == Err(NotFound)
    ensures accountId == currentUserId && st.LiveAccount(accountId) && ChangesPassword(req) &&
      !verify(req.currentPassword.value, st.accounts[accountId].passwordHash)
      ==> o.result == Err(BadRequest(WrongPassword))
    ensures o.result.Ok? <==>
      accountId == currentUserId && st.LiveAccount(accountId) &&
      (ChangesPassword(req) ==> verify(req.currentPassword.value, st.accounts[accountId].passwordHash))
    ensures o.result.Ok? ==>
      var was, a := st.accounts[accountId], o.result.value;
      o.post == st.(accounts := st.accounts[accountId := a]) &&
      a.fullName == req.fullName && a.phoneNumber == req.phone &&
      a.passwordHash == (if ChangesPassword(req) then hash(req.newPassword.value) else was.passwordHash) &&
      a.email == was.email && a.role == was.role && a.cccdNumber == was.cccdNumber &&
      a.isOwnerApproved == was.isOwnerApproved && a.audit == was.audit
  {
    if accountId != currentUserId then Fail(st, Forbidden)
    else if !st.LiveAccount(accountId) then Fail(st, NotFound)
    else
      var was := st.accounts[accountId];
      var a := was.(fullName := req.fullName, phoneNumber := req.phone);
      if ChangesPassword(req) && !verify(req.currentPassword.value, was.passwordHash) then
        Fail(st, BadRequest(WrongPassword))
      else
        var a' := if ChangesPassword(req) then a.(passwordHash := hash(req.newPassword.value)) else a;
        Outcome(Ok(a'), st.(accounts := st.accounts[accountId := a']))
  }

  /** After a password change the new password verifies, for any hasher whose
      `verify` accepts what its `hash` produced. */
  lemma ChangedPasswordVerifies(st: State, accountId: Id, req: UpdateAccountRequest,
                                hash: string -> string, verify: (string, string) -> bool)
    requires ChangesPassword(req)
    requires verify(req.newPassword.value, hash(req.newPassword.value))
    requires UpdateAccount(st, accountId, accountId, req, hash, verify).result.Ok?
    ensures var post := UpdateAccount(st, accountId, accountId, req, hash, verify).post;
      verify(req.newPassword.value, post.accounts[accountId].passwordHash)
  {
  }

  /** A missing id is NotFound; an account already deleted is a BadRequest. */
  function DeleteAccount(st: State, now: DateTime, accountId: Id, actor: Id): (o: Outcome<bool>)
    ensures o.result.Err? ==> o.post == st
    ensures accountId !in st.accounts ==> o.result == Err(NotFound)
    ensures accountId in st.accounts && st.accounts[accountId].audit.isDeleted ==> o.result == Err(BadRequest(AlreadyDeleted))
    ensures o.result.Ok? <==> st.LiveAccount(accountId)
    ensures o.result.Ok? ==>
      var was := st.accounts[accountId];
      o.result.value &&
      o.post == st.(accounts := st.accounts[accountId := was.(audit := SoftRemoved(was.audit, now, actor))])
  {
    if accountId !in st.accounts then Fail(st, NotFound)
    else
      var was := st.accounts[accountId];
      if was.audit.isDeleted then Fail(st, BadRequest(AlreadyDeleted))
      else Outcome(Ok(true), st.(accounts := st.accounts[accountId := was.(audit := SoftRemoved(was.audit, now, actor))]))
  }

  /** Clears the flag and both deletion stamps; the account is otherwise as deleted. */
  function RestoreAccount(st: State, accountId: Id): (o: Outcome<bool>)
    ensures o.result.Err? ==> o.post == st
    ensures accountId !in st.accounts ==> o.result == Err(NotFound)
    ensures o.result.Ok? <==> accountId in st.accounts && st.accounts[accountId].audit.isDeleted
    ensures accountId in st.accounts && !st.accounts[accountId].audit.isDeleted ==> o.result == Err(BadRequest(NotDeleted))
    ensures o.result.Ok? ==>
      var was := st.accounts[accountId];
      var restored := was.(audit := was.audit.(isDeleted := false, deletedAt := None, deletedBy := None));
      o.result.value && o.post == st.(accounts := st.accounts[accountId := restored]) &&
      o.post.LiveAccount(accountId)
  {
    if accountId !in st.accounts then Fail(st, NotFound)
    else
      var was := st.accounts[accountId];
      if !was.audit.isDeleted then Fail(st, BadRequest(NotDeleted))
      else
        var restored := was.(audit := was.audit.(isDeleted := false, deletedAt := None, deletedBy := None));
        Outcome(Ok(true), st.(accounts := st.accounts[accountId := restored]))
  }

  /** Restore undoes Delete: an account that carries no deletion stamps comes
      back exactly as it was, and the whole database with it. */
  lemma RestoreUndoesDelete(st: State, now: DateTime, accountId: Id, actor: Id)
    requires st.LiveAccount(accountId)
    requires st.accounts[accountId].audit.deletedAt == None && st.accounts[accountId].audit.deletedBy == None
    ensures var deleted := DeleteAccount(st, now, accountId, actor);
      deleted.result.Ok? && RestoreAccount(deleted.post, accountId) == Outcome(Ok(true), st)
  {
    var deleted := DeleteAccount(st, now, accountId, actor);
    var was := st.accounts[accountId];
    var restored := deleted.post.accounts[accountId];
    var back := restored.(audit := restored.audit.(isDeleted := false, deletedAt := None, deletedBy := None));
    assert back == was;
    assert deleted.post.accounts[accountId := back] == st.accounts;
  }

  /** An unparseable role is refused before the account is looked up.
      Switching to Owner revokes any approval; other switches keep it. */
  function ChangeAccountRole(st: State, accountId: Id, newRole: string): (o: Outcome<bool>)
    ensures o.result.Err? ==> o.post == st
    ensures ParseRole(newRole).None? ==> o.result == Err(BadRequest(InvalidRole))
    ensures ParseRole(newRole).Some? && !st.LiveAccount(accountId) ==> o.result == Err(NotFound)
    ensures o.result.Ok? <==> ParseRole(newRole).Some? && st.LiveAccount(accountId)
    ensures o.result.Ok? ==>
      var was, role := st.accounts[accountId], ParseRole(newRole).value;
      var a := was.(role := role, isOwnerApproved := if role == Owner then false else was.isOwnerApproved);
      o.result.value && o.post == st.(accounts := st.accounts[accountId := a])
  {
    var parsed := ParseRole(newRole);
    if parsed.None? then Fail(st, BadRequest(InvalidRole))
    else if !st.LiveAccount(accountId) then Fail(st, NotFound)
    else
      var was := st.accounts[accountId];
      var a := was.(role := parsed.value, isOwnerApproved := if parsed.value == Owner then false else was.isOwnerApproved);
      Outcome(Ok(true), st.(accounts := st.accounts[accountId := a]))
  }

  function ApproveOwnerAccount(st: State, accountId: Id): (o: Outcome<bool>)
    ensures o.result.Err? ==> o.post == st
    ensures !st.LiveAccount(accountId) ==> o.result == Err(NotFound)
    ensures st.LiveAccount(accountId) && st.accounts[accountId].role != Owner ==> o.result == Err(BadRequest(NotOwnerRole))
    ensures o.result.Ok? <==> st.LiveAccount(accountId) && st.accounts[accountId].role == Owner
    ensures o.result.Ok? ==>
      o.result.value &&
      o.post == st.(accounts := st.accounts[accountId := st.accounts[accountId].(isOwnerApproved := true)])
  {
    if !st.LiveAccount(accountId) then Fail(st, NotFound)
    else if st.accounts[accountId].role != Owner then Fail(st, BadRequest(NotOwnerRole))
    else Outcome(Ok(true), st.(accounts := st.accounts[accountId := st.accounts[accountId].(isOwnerApproved := true)]))
  }

  /** Approval does not survive re-assigning the Owner role: an approved owner
      whose role is set to "owner" again must be approved again. */
  lemma ReassigningOwnerRevokesApproval(st: State, accountId: Id)
    requires ApproveOwnerAccount(st, accountId).result.Ok?
    ensures var approved := ApproveOwnerAccount(st, accountId).post;
      approved.accounts[accountId].isOwnerApproved &&
      var changed := ChangeAccountRole(approved, accountId, "owner");
      changed.result.Ok? && !changed.post.accounts[accountId].isOwnerApproved &&
      changed.post.accounts[accountId].role == Owner
  {
    ParseLowerCaseName(Owner);
  }

  /** The query filters of GetAccountsAsync; `None` (or a blank search term)
      means not filtered. */
  datatype AccountFilter = AccountFilter(
    searchTerm: Option<string>,
    role: Option<Role>,
    isDeleted: Option<bool>,
    isOwnerApproved: Option<bool>,
    createdFrom: Option<DateTime>,
    createdTo: Option<DateTime>)

  const NoFilter := AccountFilter(None, None, None, None, None, None)

  predicate PassesFilter(f: AccountFilter, a: Account)
  {
    (if f.isDeleted.Some? then a.audit.isDeleted == f.isDeleted.value else !a.audit.isDeleted) &&
    (!Blank(f.searchTerm) ==> MatchesSearch(a, f.searchTerm.value)) &&
    (f.role.Some? ==> a.role == f.role.value) &&
    (f.isOwnerApproved.Some? ==> a.isOwnerApproved == f.isOwnerApproved.value) &&
    (f.createdFrom.Some? ==> !Before(a.audit.createdAt, f.createdFrom.value)) &&
    (f.createdTo.Some? ==> !Before(f.createdTo.value, a.audit.createdAt))
  }

  /** The term occurs in the name, the e-mail, the phone or the CCCD number. */
  predicate MatchesSearch(a: Account, term: string)
  {
    Contains(a.fullName, term) || Contains(a.email, term) || Contains(a.phoneNumber, term) ||
    Contains(a.cccdNumber, term)
  }

  function MatchingAccounts(accounts: map<Id, Account>, f: AccountFilter): (S: set<Id>)
    ensures S <= accounts.Keys
    ensures forall k :: k in S <==> k in accounts && PassesFilter(f, accounts[k])
  {
    set k | k in accounts && PassesFilter(f, accounts[k])
  }

  /** With no filter supplied, the query returns exactly the live accounts, and
      any supplied filter only narrows that. */
  lemma DefaultListsLiveAccounts(st: State, f: AccountFilter)
    requires f.isDeleted.None?
    ensures forall k :: k in MatchingAccounts(st.accounts, NoFilter) <==> st.LiveAccount(k)
    ensures MatchingAccounts(st.accounts, f) <= MatchingAccounts(st.accounts, NoFilter)
  {
  }

  function AccountCreatedAt(a: Account): DateTime { a.audit.createdAt }

  /** One page of the matching accounts, newest first, and how many matched. */
  ghost function GetAccounts(st: State, pageNumber: int, pageSize: int, f: AccountFilter): (r: Result<Pagination<Account>>)
    ensures r.Err? <==> PageRejected(pageNumber, pageSize)
    ensures r.Err? ==> r.error == Failure(NegativePaging)
    ensures r.Ok? ==> r.value.totalCount == |MatchingAccounts(st.accounts, f)|
    ensures r.Ok? ==> |r.value.items| <= r.value.totalCount && |r.value.items| <= pageSize
    ensures r.Ok? ==> forall i :: 0 <= i < |r.value.items| ==> PassesFilter(f, r.value.items[i])
    ensures r.Ok? ==> forall i, j :: 0 <= i < j < |r.value.items| ==> !Before(AccountCreatedAt(r.value.items[i]), AccountCreatedAt(r.value.items[j]))
    ensures r.Ok? ==> 1 <= pageNumber && 1 <= pageSize && (pageNumber - 1) * pageSize <= Int32Max ==>
      (pageNumber - 1) * pageSize >= 0 &&
      r.value.items == Rows(st.accounts,
        Slice(Listing(st.accounts, MatchingAccounts(st.accounts, f), AccountCreatedAt), (pageNumber - 1) * pageSize, pageSize))
  {
    var S := MatchingAccounts(st.accounts, f);
    if PageRejected(pageNumber, pageSize) then Err(Failure(NegativePaging))
    else
      Ok(Pagination(PageOf(st.accounts, S, AccountCreatedAt, a => PassesFilter(f, a), pageNumber, pageSize),
        |S|, pageNumber, pageSize))
  }
}
