/** `ensureSuperAdmin`: the fixed administrator account is created, or its password and
    role are reset, before every login. */
module SuperAdmin {
  import opened Common
  import opened Models
  import opened Seqs
  import opened Store

  const AdminEmail: string := "admin@yourdomain.com"
  const AdminPassword: string := "admin123"

  /** The account a login for the admin email finds is a superadmin whose digest was made
      from the fixed administrator password. */
  predicate HasSuperAdmin(db: Db) {
    match FindUserByEmail(db, AdminEmail)
    case None => false
    case Some(i) => db.users[i].role == SuperAdmin && db.users[i].passwordHash.plain == AdminPassword
  }

  /** Upsert of the administrator. The create call also passes `nom`, `prenom` and `tel`,
      which are not schema fields and are dropped; no status is passed, so the schema
      default applies. `salt` is the salt bcrypt would draw. */
  function EnsureSuperAdmin(db: Db, salt: nat): (r: Db)
    ensures HasSuperAdmin(r)
    ensures r.requests == db.requests && r.farms == db.farms && r.zones == db.zones
    ensures FindUserByEmail(db, AdminEmail).None? ==>
      && |r.users| == |db.users| + 1
      && r.users[..|db.users|] == db.users
      && r.users[|db.users|].id == db.nextId
      && r.users[|db.users|].email == AdminEmail
      && r.users[|db.users|].role == SuperAdmin
      && r.users[|db.users|].status == Active
      && r.nextId == db.nextId + 1
    ensures FindUserByEmail(db, AdminEmail).Some? ==>
      var i := FindUserByEmail(db, AdminEmail).value;
      && |r.users| == |db.users|
      && r.users[i] == db.users[i].(passwordHash := Hashed(AdminPassword, salt), role := SuperAdmin)
      && (forall j :: 0 <= j < |db.users| && j != i ==> r.users[j] == db.users[j])
      && r.nextId == db.nextId
  {
    var hash := Hashed(AdminPassword, salt);
    match FindUserByEmail(db, AdminEmail)
    case None =>
      var admin := User(db.nextId, AdminEmail, hash, SuperAdmin, None, None, None, InitialStatus(None), None);
      var users := db.users + [admin];
      IndexOfFirst(users, UserEmail, |db.users|);
      db.(users := users, nextId := db.nextId + 1)
    case Some(i) =>
      var users := db.users[i := db.users[i].(passwordHash := hash, role := SuperAdmin)];
      IndexOfFirst(users, UserEmail, i);
      db.(users := users)
  }

  /** Every user other than the administrator's account is left untouched. */
  lemma OtherUsersUnchanged(db: Db, salt: nat, j: nat)
    requires j < |db.users| && db.users[j].email != AdminEmail
    ensures j < |EnsureSuperAdmin(db, salt).users|
    ensures EnsureSuperAdmin(db, salt).users[j] == db.users[j]
  {
    var r := EnsureSuperAdmin(db, salt);
    if FindUserByEmail(db, AdminEmail).None? {
      assert r.users[..|db.users|][j] == db.users[j];
    }
  }

  /** The upsert keeps the store's guarantees: it never duplicates the admin email. */
  lemma EnsureSuperAdminValid(db: Db, salt: nat)
    requires Valid(db)
    ensures Valid(EnsureSuperAdmin(db, salt))
  {
    var r := EnsureSuperAdmin(db, salt);
    match FindUserByEmail(db, AdminEmail)
    case None =>
      var admin := r.users[|db.users|];
      assert r.users == db.users + [admin];
      DistinctAppend(db.users, UserEmail, admin);
      DistinctAppend(db.users, UserId, admin);
    case Some(i) =>
      var u := r.users[i];
      assert r.users == db.users[i := u];
      DistinctUpdate(db.users, UserEmail, i, u);
      DistinctUpdate(db.users, UserId, i, u);
  }
}
