/** The account lifecycle across handlers: every request is one atomic step on the store;
    a registered owner waits in `INVITED` until an administrator approves the request. */
module Lifecycle {
  import opened Common
  import opened Models
  import opened Seqs
  import opened Store
  import opened SuperAdmin
  import PurchaseRequestApi
  import AdminRequests
  import Auth
  import FarmsApi

  /** One request to one of the modelled handlers, with the values the handler would draw
      (bcrypt salts, the generated password) supplied. */
  datatype Action =
    | Register(input: PurchaseRequestApi.Input, generated: string, salt: nat)
    | Review(requestId: Id, decision: string)
    | LogIn(email: string, password: string, loginSalt: nat)
    | CreateFarm(session: Option<Id>, body: FarmsApi.NewFarm)
    | UpdateFarm(farmId: Id, name: Field<string>, location: Field<string>)
    | DeleteFarm(farmId: Id)

  /** The handler an action reaches. */
  function Step(db: Db, a: Action): Reply {
    match a
    case Register(input, generated, salt) => PurchaseRequestApi.Post(db, input, generated, salt)
    case Review(requestId, decision) => AdminRequests.Post(db, requestId, decision)
    case LogIn(email, password, salt) => Auth.Login(db, email, password, salt)
    case CreateFarm(session, body) => FarmsApi.Post(db, session, body)
    case UpdateFarm(farmId, name, location) => FarmsApi.Put(db, farmId, name, location)
    case DeleteFarm(farmId) => FarmsApi.Delete(db, farmId)
  }

  /** The store after a sequence of requests, handled one at a time. */
  function Run(db: Db, actions: seq<Action>): Db
    decreases |actions|
  {
    if |actions| == 0 then db else Run(Step(db, actions[0]).db, actions[1..])
  }

  /** The empty store. */
  const Empty: Db := Db([], [], [], [], 0)

  /** Every handler keeps the store's guarantees, unique emails among them. */
  lemma StepValid(db: Db, a: Action)
    requires Valid(db)
    ensures Valid(Step(db, a).db)
  {
    match a
    case Register(input, generated, salt) => PurchaseRequestApi.PostValid(db, input, generated, salt);
    case Review(requestId, decision) => AdminRequests.PostValid(db, requestId, decision);
    case LogIn(email, password, salt) => EnsureSuperAdminValid(db, salt);
    case CreateFarm(session, body) => FarmsApi.FarmOpsValid(db, session, body, 0, Missing, Missing);
    case UpdateFarm(farmId, name, location) =>
      FarmsApi.FarmOpsValid(db, None, FarmsApi.NewFarm(None, None, None, None, None), farmId, name, location);
    case DeleteFarm(farmId) =>
      FarmsApi.FarmOpsValid(db, None, FarmsApi.NewFarm(None, None, None, None, None), farmId, Missing, Missing);
  }

  /** A registration keeps every stored user, and the one it adds is `INVITED`. */
  lemma RegisterActivatesNobody(db: Db, input: PurchaseRequestApi.Input, generated: string, salt: nat,
                                j: nat, k: nat)
    requires Valid(db)
    requires j < |db.users| && k < |PurchaseRequestApi.Post(db, input, generated, salt).db.users|
    requires PurchaseRequestApi.Post(db, input, generated, salt).db.users[k].id == db.users[j].id
    ensures PurchaseRequestApi.Post(db, input, generated, salt).db.users[k] == db.users[j]
    ensures var r := PurchaseRequestApi.Post(db, input, generated, salt).db;
      forall m :: |db.users| <= m < |r.users| ==> r.users[m].status == Invited
  {
    var r := PurchaseRequestApi.Post(db, input, generated, salt).db;
    var n := |db.users|;
    if |r.users| != n {
      assert k < n ==> r.users[k] == r.users[..n][k];
    }
  }

  /** The administrator upsert run at login changes no status and gives no other user's
      id away. */
  lemma LoginActivatesNobody(db: Db, salt: nat, j: nat, k: nat)
    requires Valid(db)
    requires j < |db.users| && k < |EnsureSuperAdmin(db, salt).users|
    requires EnsureSuperAdmin(db, salt).users[k].id == db.users[j].id
    ensures EnsureSuperAdmin(db, salt).users[k].status == db.users[j].status
    ensures var r := EnsureSuperAdmin(db, salt);
      forall m, i :: |db.users| <= m < |r.users| && 0 <= i < |db.users| ==> r.users[m].id != db.users[i].id
  {
    var r := EnsureSuperAdmin(db, salt);
    var n := |db.users|;
    if k < n {
      if FindUserByEmail(db, AdminEmail).None? {
        assert r.users[k] == r.users[..n][k];
      }
      assert r.users[k].id == db.users[k].id && r.users[k].status == db.users[k].status;
    }
  }

  /** A review changes a status only by approving the request of that very account. */
  lemma ReviewActivatesOnlyItsUser(db: Db, requestId: Id, decision: string, j: nat, k: nat)
    requires Valid(db)
    requires j < |db.users| && k < |AdminRequests.Post(db, requestId, decision).db.users|
    requires AdminRequests.Post(db, requestId, decision).db.users[k].id == db.users[j].id
    ensures || AdminRequests.Post(db, requestId, decision).db.users[k] == db.users[j]
            || (&& decision == "approve"
                && FindRequest(db, requestId).Some?
                && db.requests[FindRequest(db, requestId).value].userId == Some(db.users[j].id))
  {
    var r := AdminRequests.Post(db, requestId, decision).db;
    if FindRequest(db, requestId).Some? {
      var q := db.requests[FindRequest(db, requestId).value];
      if FindUserById(db, q.userId).Some? && decision == "reject" {
        var i := FindUserById(db, q.userId).value;
        assert r.users[k] == db.users[if k < i then k else k + 1];
      }
    }
  }

  /** Only an approval activates an account. If, under the store's guarantees, a user who
      was not `ACTIVE` is `ACTIVE` after one request, that request approved a purchase
      request whose user is that account. Registrations, other reviews, logins and farm
      changes never activate anyone. */
  lemma OnlyApproveActivates(db: Db, a: Action, j: nat, k: nat)
    requires Valid(db)
    requires j < |db.users| && k < |Step(db, a).db.users|
    requires Step(db, a).db.users[k].id == db.users[j].id
    ensures db.users[j].status != Active && Step(db, a).db.users[k].status == Active ==>
      && a.Review? && a.decision == "approve"
      && FindRequest(db, a.requestId).Some?
      && db.requests[FindRequest(db, a.requestId).value].userId == Some(db.users[j].id)
  {
    match a
    case Register(input, generated, salt) => RegisterActivatesNobody(db, input, generated, salt, j, k);
    case Review(requestId, decision) => ReviewActivatesOnlyItsUser(db, requestId, decision, j, k);
    case LogIn(email, password, salt) => LoginActivatesNobody(db, salt, j, k);
    case CreateFarm(session, body) =>
    case UpdateFarm(farmId, name, location) =>
    case DeleteFarm(farmId) =>
  }

  /** Any sequence of requests from a store with the guarantees keeps them: in particular
      no two users ever share an email. */
  lemma {:induction false} RunValid(db: Db, actions: seq<Action>)
    requires Valid(db)
    ensures Valid(Run(db, actions))
    decreases |actions|
  {
    if |actions| > 0 {
      StepValid(db, actions[0]);
      RunValid(Step(db, actions[0]).db, actions[1..]);
    }
  }

  /** Every store the application can reach from an empty database has unique emails. */
  lemma ReachableEmailsDistinct(actions: seq<Action>)
    ensures DistinctKeys(Run(Empty, actions).users, UserEmail)
  {
    RunValid(Empty, actions);
  }

  /** Under the store's guarantees, a login for an email other than the administrator's
      finds the same account before and after the administrator upsert. */
  lemma LoginFinds(db: Db, n: nat, salt: nat)
    requires Valid(db)
    requires n < |db.users| && db.users[n].email != AdminEmail
    ensures var after := EnsureSuperAdmin(db, salt);
      && n < |after.users| && after.users[n] == db.users[n]
      && FindUserByEmail(after, db.users[n].email) == Some(n)
      && HasUser(after, db.users[n].email)
  {
    var after := EnsureSuperAdmin(db, salt);
    OtherUsersUnchanged(db, salt, n);
    EnsureSuperAdminValid(db, salt);
    IndexOfUnique(after.users, UserEmail, n);
  }

  /** A freshly registered owner is refused at login, with any password, until approved. */
  lemma InvitedOwnerRefused(db: Db, input: PurchaseRequestApi.Input, generated: string, salt: nat,
                            password: string, loginSalt: nat)
    requires Valid(db)
    requires PurchaseRequestApi.HasContact(input) && PurchaseRequestApi.PasswordAccepted(input)
    requires !HasUser(db, input.email.value)
    requires input.email.value != AdminEmail
    ensures var registered := PurchaseRequestApi.Post(db, input, generated, salt).db;
      var r := Auth.Login(registered, input.email.value, password, loginSalt).response;
      && r.status != 200
      && (password == PurchaseRequestApi.ChosenPassword(input, generated) ==>
            r == Response(403, Error("Account not approved")))
  {
    var registered := PurchaseRequestApi.Post(db, input, generated, salt).db;
    PurchaseRequestApi.PostValid(db, input, generated, salt);
    LoginFinds(registered, |db.users|, loginSalt);
  }

  /** Registering, then having the request approved, lets the owner log in with the
      password chosen at registration, and the account is then `ACTIVE`. */
  lemma ApprovedOwnerLogsIn(db: Db, input: PurchaseRequestApi.Input, generated: string, salt: nat,
                            loginSalt: nat)
    requires Valid(db)
    requires PurchaseRequestApi.HasContact(input) && PurchaseRequestApi.PasswordAccepted(input)
    requires !HasUser(db, input.email.value)
    requires input.email.value != AdminEmail
    ensures var registered := PurchaseRequestApi.Post(db, input, generated, salt).db;
      var requestId := registered.requests[|db.requests|].id;
      var approved := AdminRequests.Post(registered, requestId, "approve");
      var r := Auth.Login(approved.db, input.email.value,
                          PurchaseRequestApi.ChosenPassword(input, generated), loginSalt).response;
      && approved.response.status == 200
      && r.status == 200 && r.body.LoggedIn? && r.body.status == Active && r.body.role == Owner
  {
    var registered := PurchaseRequestApi.Post(db, input, generated, salt).db;
    PurchaseRequestApi.PostValid(db, input, generated, salt);
    var n, k := |db.users|, |db.requests|;
    var q := registered.requests[k];
    IndexOfUnique(registered.requests, RequestId, k);
    IndexOfUnique(registered.users, UserId, n);
    var approved := AdminRequests.Post(registered, q.id, "approve").db;
    AdminRequests.PostValid(registered, q.id, "approve");
    assert approved.users[n] == AdminRequests.ApprovedUser(registered.users[n], q);
    LoginFinds(approved, n, loginSalt);
  }

  /** Rejecting a freshly registered owner leaves no user with that email. */
  lemma RejectForgetsEmail(db: Db, input: PurchaseRequestApi.Input, generated: string, salt: nat)
    requires Valid(db)
    requires PurchaseRequestApi.HasContact(input) && PurchaseRequestApi.PasswordAccepted(input)
    requires !HasUser(db, input.email.value)
    ensures var registered := PurchaseRequestApi.Post(db, input, generated, salt).db;
      var requestId := registered.requests[|db.requests|].id;
      !HasUser(AdminRequests.Post(registered, requestId, "reject").db, input.email.value)
  {
    var registered := PurchaseRequestApi.Post(db, input, generated, salt).db;
    PurchaseRequestApi.PostValid(db, input, generated, salt);
    var n, k := |db.users|, |db.requests|;
    var q := registered.requests[k];
    IndexOfUnique(registered.requests, RequestId, k);
    IndexOfUnique(registered.users, UserId, n);
    var rejected := AdminRequests.Post(registered, q.id, "reject").db;
    assert rejected.users == RemoveAt(registered.users, n);
    forall j | 0 <= j < |rejected.users| ensures rejected.users[j].email != input.email.value {
      assert rejected.users[j] == registered.users[j] == db.users[j];
    }
  }

  /** The administrator upsert adds no account under another email. */
  lemma UpsertKeepsUnknown(db: Db, email: string, salt: nat)
    requires email != AdminEmail && !HasUser(db, email)
    ensures !HasUser(EnsureSuperAdmin(db, salt), email)
  {
    var after := EnsureSuperAdmin(db, salt);
    forall j | 0 <= j < |after.users| ensures after.users[j].email != email {
      if j < |db.users| && after.users[j] != db.users[j] {
        assert after.users[j].email == AdminEmail;
      } else if j >= |db.users| {
        assert after.users[j].email == AdminEmail;
      }
    }
  }

  /** An owner whose request was rejected no longer exists and cannot log in. */
  lemma RejectedOwnerUnknown(db: Db, input: PurchaseRequestApi.Input, generated: string, salt: nat,
                             password: string, loginSalt: nat)
    requires Valid(db)
    requires PurchaseRequestApi.HasContact(input) && PurchaseRequestApi.PasswordAccepted(input)
    requires !HasUser(db, input.email.value)
    requires input.email.value != AdminEmail
    ensures var registered := PurchaseRequestApi.Post(db, input, generated, salt).db;
      var requestId := registered.requests[|db.requests|].id;
      var rejected := AdminRequests.Post(registered, requestId, "reject").db;
      Auth.Login(rejected, input.email.value, password, loginSalt).response
        == Response(404, Error("User not found"))
  {
    var registered := PurchaseRequestApi.Post(db, input, generated, salt).db;
    var rejected := AdminRequests.Post(registered, registered.requests[|db.requests|].id, "reject").db;
    RejectForgetsEmail(db, input, generated, salt);
    UpsertKeepsUnknown(rejected, input.email.value, loginSalt);
  }

  /** A purchase request for the administrator's own email, made while that account does
      not exist yet, is accepted like any other. The next login's upsert then finds the
      registered owner, makes it a superadmin with the fixed password and keeps its
      `INVITED` status: the fixed password logs in, and a password chosen at registration
      no longer does unless it derives the same bcrypt key as the fixed one. */
  lemma AdminEmailRegistrationTakenOver(db: Db, input: PurchaseRequestApi.Input, generated: string,
                                        salt: nat, loginSalt: nat)
    requires Valid(db)
    requires PurchaseRequestApi.HasContact(input) && PurchaseRequestApi.PasswordAccepted(input)
    requires input.email.value == AdminEmail && !HasUser(db, AdminEmail)
    ensures var registered := PurchaseRequestApi.Post(db, input, generated, salt);
      var chosen := PurchaseRequestApi.ChosenPassword(input, generated);
      var u := registered.db.users[|db.users|];
      && registered.response.status == 200
      && Auth.Login(registered.db, AdminEmail, AdminPassword, loginSalt).response
           == Response(200, LoggedIn(AdminEmail, SuperAdmin, Invited, input.fullName, u.id))
      && (BcryptKey(chosen) != BcryptKey(AdminPassword) ==>
            Auth.Login(registered.db, AdminEmail, chosen, loginSalt).response
              == Response(401, Error("Invalid password")))
  {
    var registered := PurchaseRequestApi.Post(db, input, generated, salt).db;
    var n := |db.users|;
    PurchaseRequestApi.PostValid(db, input, generated, salt);
    IndexOfUnique(registered.users, UserEmail, n);
    var after := EnsureSuperAdmin(registered, loginSalt);
    EnsureSuperAdminValid(registered, loginSalt);
    IndexOfUnique(after.users, UserEmail, n);
    assert after.users[n].email == AdminEmail;
  }
}
