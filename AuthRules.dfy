/** Registration and the guard chain of login. The password hasher is a pair
    of function parameters; token generation is not part of the model. */
module AuthRules {
  import opened Core
  import opened Entities
  import opened Store
  import opened Query
  import AccountRules

  datatype RegisterRequest = RegisterRequest(
    fullName: string,
    email: string,
    phone: string,
    cccdNumber: string,
    password: string)

  /** The non-deleted accounts registered under `email`. */
  function LiveWithEmail(accounts: map<Id, Account>, email: string): (S: set<Id>)
    ensures S <= accounts.Keys
    ensures forall k :: k in S <==> k in accounts && !accounts[k].audit.isDeleted && accounts[k].email == email
  {
    set k | k in accounts && !accounts[k].audit.isDeleted && accounts[k].email == email
  }

  /** AccountExistsAsync. */
  predicate EmailInUse(st: State, email: string)
  {
    LiveWithEmail(st.accounts, email) != {}
  }

  function NewAccount(now: DateTime, req: RegisterRequest, hash: string -> string): (a: Account)
    ensures !a.audit.isDeleted && a.audit.createdAt == now
    ensures a.role == User && !a.isOwnerApproved
    ensures a.fullName == req.fullName && a.email == req.email && a.phoneNumber == req.phone
    ensures a.cccdNumber == req.cccdNumber && a.passwordHash == hash(req.password)
  {
    Account(Inserted(now), req.email, hash(req.password), User, req.fullName, req.phone, req.cccdNumber, false)
  }

  /** Conflict when a live account holds the email; otherwise a fresh User
      account, never approved, whatever the request says. */
  function Register(st: State, now: DateTime, req: RegisterRequest, hash: string -> string): (o: Outcome<Id>)
    requires st.Valid()
    ensures o.result.Err? ==> o.post == st
    ensures o.result.Ok? <==> !EmailInUse(st, req.email)
    ensures o.result.Err? ==> o.result.error == Conflict
    ensures o.result.Ok? ==>
      o.result.value == st.nextId && st.nextId !in st.accounts && o.post.Valid() &&
      o.post == st.(accounts := st.accounts[st.nextId := NewAccount(now, req, hash)], nextId := st.nextId + 1)
  {
    if EmailInUse(st, req.email) then Fail(st, Conflict)
    else Outcome(Ok(st.nextId), st.(accounts := st.accounts[st.nextId := NewAccount(now, req, hash)], nextId := st.nextId + 1))
  }

  /** The login guards, in order: both fields present, a live account with the
      email (the first the database meets, modelled as the smallest id), and a
      password that verifies against its hash. The result is the account the
      token would be issued for. */
  ghost function Login(st: State, email: string, password: string, verify: (string, string) -> bool): (r: Result<Id>)
    ensures Blank(Some(email)) || Blank(Some(password)) ==> r == Err(BadRequest(MissingCredentials))
    ensures !Blank(Some(email)) && !Blank(Some(password)) && !EmailInUse(st, email) ==> r == Err(NotFound)
    ensures !Blank(Some(email)) && !Blank(Some(password)) && EmailInUse(st, email) &&
      !verify(password, st.accounts[Least(LiveWithEmail(st.accounts, email)).value].passwordHash)
      ==> r == Err(Unauthorized)
    ensures r.Ok? ==>
      IsLeast(LiveWithEmail(st.accounts, email), r.value) && st.LiveAccount(r.value) &&
      st.accounts[r.value].email == email && verify(password, st.accounts[r.value].passwordHash)
    ensures r.Ok? <==>
      !Blank(Some(email)) && !Blank(Some(password)) && EmailInUse(st, email) &&
      verify(password, st.accounts[Least(LiveWithEmail(st.accounts, email)).value].passwordHash)
  {
    if Blank(Some(email)) || Blank(Some(password)) then Err(BadRequest(MissingCredentials))
    else
      match Least(LiveWithEmail(st.accounts, email))
      case None => Err(NotFound)
      case Some(id) =>
        if !verify(password, st.accounts[id].passwordHash) then Err(Unauthorized) else Ok(id)
  }

  /** No two live accounts share an email. */
  ghost predicate UniqueLiveEmails(st: State)
  {
    forall a, b :: st.LiveAccount(a) && st.LiveAccount(b) && st.accounts[a].email == st.accounts[b].email ==> a == b
  }

  /** Registration keeps live emails unique. */
  lemma RegisterKeepsEmailsUnique(st: State, now: DateTime, req: RegisterRequest, hash: string -> string)
    requires st.Valid() && UniqueLiveEmails(st)
    ensures UniqueLiveEmails(Register(st, now, req, hash).post)
  {
    var o := Register(st, now, req, hash);
    if o.result.Ok? {
      assert forall k :: st.LiveAccount(k) ==> st.accounts[k].email != req.email;
    }
  }

  /** The same request twice: the second is a Conflict and adds nothing. */
  lemma RegisterTwiceConflicts(st: State, now: DateTime, later: DateTime, req: RegisterRequest, hash: string -> string)
    requires st.Valid() && Register(st, now, req, hash).result.Ok?
    ensures var post := Register(st, now, req, hash).post;
      Register(post, later, req, hash) == Outcome(Err(Conflict), post)
  {
    var post := Register(st, now, req, hash).post;
    assert st.nextId in LiveWithEmail(post.accounts, req.email);
  }

  /** A freshly registered account can log in with its password, for any
      hasher whose `verify` accepts what its `hash` produced; the account found
      is the new one. */
  lemma RegisterThenLogin(st: State, now: DateTime, req: RegisterRequest,
                          hash: string -> string, verify: (string, string) -> bool)
    requires st.Valid()
    requires Register(st, now, req, hash).result.Ok?
    requires !Blank(Some(req.email)) && !Blank(Some(req.password))
    requires verify(req.password, hash(req.password))
    ensures var o := Register(st, now, req, hash);
      Login(o.post, req.email, req.password, verify) == Ok(o.result.value)
  {
    var o := Register(st, now, req, hash);
    var S := LiveWithEmail(o.post.accounts, req.email);
    assert forall k :: st.LiveAccount(k) ==> st.accounts[k].email != req.email;
    assert st.nextId in S;
    assert S == {st.nextId};
  }

  /** Under unique live emails, login finds the one account with the email. */
  lemma LoginFindsTheAccount(st: State, id: Id, password: string, verify: (string, string) -> bool)
    requires UniqueLiveEmails(st) && st.LiveAccount(id)
    requires !Blank(Some(st.accounts[id].email)) && !Blank(Some(password))
    ensures var r := Login(st, st.accounts[id].email, password, verify);
      (r.Ok? ==> r.value == id) &&
      (r.Ok? <==> verify(password, st.accounts[id].passwordHash)) &&
      (r.Err? ==> r.error == Unauthorized)
  {
    var S := LiveWithEmail(st.accounts, st.accounts[id].email);
    assert id in S;
    forall k | k in S
      ensures k == id
    {
    }
    assert S == {id};
  }

  /** Restore does not look at emails: after register, delete, register again
      and restore, two live accounts share one email, and login picks between
      them by a rule the source leaves to the database. */
  lemma RestoreCanDuplicateEmail(now: DateTime, req: RegisterRequest, hash: string -> string)
    ensures var s1 := Register(Empty(), now, req, hash);
      var s2 := AccountRules.DeleteAccount(s1.post, now, 0, 0);
      var s3 := Register(s2.post, now, req, hash);
      var s4 := AccountRules.RestoreAccount(s3.post, 0);
      s1.result == Ok(0) && s2.result == Ok(true) && s3.result == Ok(1) && s4.result == Ok(true) &&
      s4.post.LiveAccount(0) && s4.post.LiveAccount(1) &&
      s4.post.accounts[0].email == s4.post.accounts[1].email && !UniqueLiveEmails(s4.post)
  {
    var a := NewAccount(now, req, hash);
    var s1 := Register(Empty(), now, req, hash);
    assert s1.post.accounts == map[0 := a] && s1.post.nextId == 1;
    var s2 := AccountRules.DeleteAccount(s1.post, now, 0, 0);
    var gone := a.(audit := SoftRemoved(a.audit, now, 0));
    assert s2.post.accounts == map[0 := gone] && s2.post.nextId == 1;
    assert LiveWithEmail(s2.post.accounts, req.email) == {};
    var s3 := Register(s2.post, now, req, hash);
    assert s3.post.accounts == map[0 := gone, 1 := a];
    var s4 := AccountRules.RestoreAccount(s3.post, 0);
    assert s4.post.LiveAccount(0) && s4.post.LiveAccount(1);
  }
}
