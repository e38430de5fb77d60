/** `POST /api/purchase-request`: a prospective owner asks for an account. The handler
    creates an `OWNER` user awaiting approval (`INVITED`) and a `PENDING` request. */
module PurchaseRequestApi {
  import opened Common
  import opened Models
  import opened Seqs
  import opened Store

  /** The JSON body; any field may be missing. */
  datatype Input = Input(
    fullName: Option<string>,
    email: Option<string>,
    phone: Option<string>,
    password: Option<string>,
    confirmPassword: Option<string>,
    farmName: Option<string>,
    message: Option<string>,
    city: Option<string>)

  /** The three contact fields are present and non-empty. */
  predicate HasContact(input: Input) {
    Truthy(input.fullName) && Truthy(input.email) && Truthy(input.phone)
  }

  /** The password check passes: no password was given, or the confirmation repeats it. */
  predicate PasswordAccepted(input: Input) {
    !Truthy(input.password) || input.confirmPassword == input.password
  }

  /** The password the new account gets: the submitted one, or `generated` (the random
      password the handler draws) when none was submitted. */
  function ChosenPassword(input: Input, generated: string): (pw: string)
    ensures Truthy(input.password) ==> pw == input.password.value
    ensures !Truthy(input.password) ==> pw == generated
  {
    if Truthy(input.password) then input.password.value else generated
  }

  /** The account and the request a successful call stores, both carrying the caller's data. */
  predicate Registered(db: Db, r: Db, input: Input, password: string)
    requires HasContact(input)
  {
    && |r.users| == |db.users| + 1 && r.users[..|db.users|] == db.users
    && |r.requests| == |db.requests| + 1 && r.requests[..|db.requests|] == db.requests
    && r.farms == db.farms && r.zones == db.zones
    && var u := r.users[|db.users|];
    && var q := r.requests[|db.requests|];
    && u.id == db.nextId && u.email == input.email.value
    && u.role == Owner && u.status == Invited
    && Matches(password, u.passwordHash)
    && u.fullName == input.fullName && u.phone == input.phone && u.city == input.city
    && u.companyName == None
    && q.fullName == input.fullName.value && q.email == input.email.value && q.phone == input.phone.value
    && q.farmName == input.farmName && q.message == input.message
    && q.userId == Some(u.id) && q.status == Pending
    && q.id != u.id && q.id < r.nextId && u.id < r.nextId && db.nextId < r.nextId
  }

  /** The handler. Checks run in a fixed order: contact fields, then password confirmation,
      then duplicate email; a refused call leaves the store as it was. `salt` is the salt
      bcrypt would draw. */
  function Post(db: Db, input: Input, generated: string, salt: nat): (r: Reply)
    ensures !HasContact(input) ==> r == Refuse(db, 400, "Invalid input")
    ensures HasContact(input) && !PasswordAccepted(input) ==>
      r == Refuse(db, 400, "Passwords do not match")
    ensures HasContact(input) && PasswordAccepted(input) && HasUser(db, input.email.value) ==>
      r == Refuse(db, 409, "User already exists")
    ensures HasContact(input) && PasswordAccepted(input) && !HasUser(db, input.email.value) ==>
      r.response == Response(200, Success) && Registered(db, r.db, input, ChosenPassword(input, generated))
  {
    if !HasContact(input) then Refuse(db, 400, "Invalid input")
    else if Truthy(input.password) && input.password != input.confirmPassword then
      Refuse(db, 400, "Passwords do not match")
    else if FindUserByEmail(db, input.email.value).Some? then
      Refuse(db, 409, "User already exists")
    else
      var password := ChosenPassword(input, generated);
      var user := User(db.nextId, input.email.value, Hashed(password, salt), Owner,
                       input.fullName, input.phone, input.city, InitialStatus(Some(Invited)), None);
      var request := PurchaseRequest(db.nextId + 1, input.fullName.value, input.email.value,
                                     input.phone.value, input.farmName, input.message,
                                     Some(user.id), Pending);
      var r := db.(users := db.users + [user], requests := db.requests + [request], nextId := db.nextId + 2);
      assert r.users[..|db.users|] == db.users && r.requests[..|db.requests|] == db.requests;
      Reply(Response(200, Success), r)
  }

  /** Whatever the outcome, emails stay unique and the store keeps its guarantees. */
  lemma PostValid(db: Db, input: Input, generated: string, salt: nat)
    requires Valid(db)
    ensures Valid(Post(db, input, generated, salt).db)
  {
    var r := Post(db, input, generated, salt).db;
    if HasContact(input) && PasswordAccepted(input) && !HasUser(db, input.email.value) {
      var u := r.users[|db.users|];
      var q := r.requests[|db.requests|];
      assert r.users == db.users + [u];
      assert r.requests == db.requests + [q];
      DistinctAppend(db.users, UserEmail, u);
      DistinctAppend(db.users, UserId, u);
      DistinctAppend(db.requests, RequestId, q);
    }
  }
}
