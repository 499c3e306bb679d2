/** Registration and login over the unit of work. */
module AuthService {
  import opened Core
  import opened Entities
  import opened Store
  import opened Query
  import AuthRules

  /** AccountExistsAsync scans the table for a live account with the email. */
  method AccountExists(db: UnitOfWork, email: string) returns (found: bool)
    ensures found == AuthRules.EmailInUse(db.Snapshot(), email)
  {
    var m := db.accounts;
    var matches := set k | k in m && !m[k].audit.isDeleted && m[k].email == email;
    assert matches == AuthRules.LiveWithEmail(m, email);
    found := matches != {};
  }

  method Register(db: UnitOfWork, now: DateTime, req: AuthRules.RegisterRequest, hash: string -> string)
    returns (r: Result<Id>)
    requires db.Snapshot().Valid()
    modifies db
    ensures Outcome(r, db.Snapshot()) == AuthRules.Register(old(db.Snapshot()), now, req, hash)
  {
    var taken := AccountExists(db, req.email);
    if taken {
      return Err(Conflict);
    }
    var account := AuthRules.NewAccount(now, req, hash);
    var id := db.nextId;
    db.accounts := db.accounts[id := account];
    db.nextId := id + 1;
    r := Ok(id);
  }

  /** Reads only; the token issued on success is not modelled. */
  method Login(db: UnitOfWork, email: string, password: string, verify: (string, string) -> bool)
    returns (r: Result<Id>)
    ensures r == AuthRules.Login(db.Snapshot(), email, password, verify)
  {
    if Blank(Some(email)) || Blank(Some(password)) {
      return Err(BadRequest(MissingCredentials));
    }
    var m := db.accounts;
    var first := FindLeast(set k | k in m && !m[k].audit.isDeleted && m[k].email == email);
    assert (set k | k in m && !m[k].audit.isDeleted && m[k].email == email) == AuthRules.LiveWithEmail(m, email);
    if first.None? {
      return Err(NotFound);
    }
    if !verify(password, m[first.value].passwordHash) {
      return Err(Unauthorized);
    }
    r := Ok(first.value);
  }
}
