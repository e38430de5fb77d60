/** `POST /api/auth`: log in with email and password. Owners must have been approved. */
module Auth {
  import opened Common
  import opened Models
  import opened Seqs
  import opened Store
  import opened SuperAdmin

  /** The account may log in as far as its status goes: only owners are gated. */
  predicate MayLogIn(u: User) {
    u.role != Owner || u.status == Active
  }

  /** The handler. The administrator upsert runs first, so the store afterwards is the
      upserted one; the login itself writes nothing. `salt` is the upsert's bcrypt salt. */
  function Login(db: Db, email: string, password: string, salt: nat): (r: Reply)
    ensures r.db == EnsureSuperAdmin(db, salt)
    ensures HasSuperAdmin(r.db)
    ensures !HasUser(r.db, email) ==> r.response == Response(404, Error("User not found"))
    ensures HasUser(r.db, email) ==>
      var u := r.db.users[FindUserByEmail(r.db, email).value];
      && u.email == email
      && (!Matches(password, u.passwordHash) ==> r.response == Response(401, Error("Invalid password")))
      && (Matches(password, u.passwordHash) && !MayLogIn(u) ==>
            r.response == Response(403, Error("Account not approved")))
      && (Matches(password, u.passwordHash) && MayLogIn(u) ==>
            r.response == Response(200, LoggedIn(u.email, u.role, u.status, u.fullName, u.id)))
  {
    var after := EnsureSuperAdmin(db, salt);
    match FindUserByEmail(after, email)
    case None => Refuse(after, 404, "User not found")
    case Some(i) =>
      var u := after.users[i];
      if !Matches(password, u.passwordHash) then Refuse(after, 401, "Invalid password")
      else if u.role == Owner && u.status != Active then Refuse(after, 403, "Account not approved")
      else Reply(Response(200, LoggedIn(u.email, u.role, u.status, u.fullName, u.id)), after)
  }

  /** The administrator can always log in with the fixed password, whatever the store held. */
  lemma AdminAlwaysLogsIn(db: Db, salt: nat)
    ensures Login(db, AdminEmail, AdminPassword, salt).response.status == 200
  {
    var after := EnsureSuperAdmin(db, salt);
    assert HasUser(after, AdminEmail) by {
      var i := FindUserByEmail(after, AdminEmail).value;
      assert after.users[i].email == AdminEmail;
    }
  }

  /** bcrypt compares derived keys, not strings: the fixed password, a NUL and the fixed
      password again logs in as the administrator too. */
  lemma AdminPasswordRepeatedLogsIn(db: Db, salt: nat)
    ensures Login(db, AdminEmail, AdminPassword + "\0" + AdminPassword, salt).response.status == 200
  {
    var after := EnsureSuperAdmin(db, salt);
    var i := FindUserByEmail(after, AdminEmail).value;
    assert HasUser(after, AdminEmail) by {
      assert after.users[i].email == AdminEmail;
    }
    RepeatedPasswordMatches(AdminPassword, salt);
  }

  /** A login never changes a status, so it cannot approve an owner. */
  lemma LoginKeepsStatuses(db: Db, email: string, password: string, salt: nat, j: nat)
    requires j < |db.users|
    ensures j < |Login(db, email, password, salt).db.users|
    ensures Login(db, email, password, salt).db.users[j].status == db.users[j].status
  {
  }
}
